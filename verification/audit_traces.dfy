/** Whole runs of the audit log: what every sequence of writes, rotations, crashes in the middle of a
    line, closes and restarts leaves in the audit directory. */
module AuditTraces {
  import opened Json
  import opened Canonical
  import opened AuditChain
  import opened LogLines
  import opened AuditLog
  import opened AuditRuns

  datatype Event =
    | Write(data: string, fsync: bool, env: Env)
    | Close
    | Restart(truncateOk: bool, env: Env)

  ghost function Step(c: Keyed, max: int, st: Log, e: Event): Log {
    match e
    case Write(data, fsync, env) => WriteStep(c, max, st, data, fsync, env).0
    case Close => CloseStep(st)
    case Restart(truncateOk, env) => StartStep(c, st, truncateOk, env).0
  }

  ghost function Run(c: Keyed, max: int, st: Log, es: seq<Event>): Log
    decreases |es|
  {
    if es == [] then st else Run(c, max, Step(c, max, st, es[0]), es[1..])
  }

  /** A new logger before its first start, over an empty directory. */
  function Fresh(c: Keyed): Log {
    Log([], None, false, 0, "", false, false, c.genesis)
  }

  /** What the run theorem asks of one event in the state it meets. */
  ghost predicate Faithful(c: Keyed, st: Log, e: Event) {
    match e
    case Write(data, fsync, env) => Plain(data, fsync, env) && KeepsAll(st, env)
    case Close => true
    case Restart(truncateOk, env) => Records(Lines(Contents(st.active))) && Resumable(c, st, truncateOk)
  }

  ghost predicate FaithfulRun(c: Keyed, max: int, st: Log, es: seq<Event>)
    decreases |es|
  {
    es == [] || (Faithful(c, st, es[0]) && FaithfulRun(c, max, Step(c, max, st, es[0]), es[1..]))
  }

  // ----- Which payloads reach the disk -----

  /** The state in which a write puts its line, if it gets that far. */
  ghost function BeforeAppend(c: Keyed, max: int, st: Log, env: Env): Option<Log> {
    if !Live(st) then None
    else if !MustRotate(st, max, env) then Some(st)
    else if RotateStep(c, st, env).1 then Some(RotateStep(c, st, env).0)
    else None
  }

  /** The whole line reaches the disk: every accepted write, and one whose write failed only after
      its last byte. */
  ghost predicate Lands(c: Keyed, max: int, st: Log, e: Event) {
    e.Write? && BeforeAppend(c, max, st, e.env).Some?
    && (e.env.io.Done?
        || (e.env.io.WriteFails? && e.env.io.n > |LineOf(c, e.data, BeforeAppend(c, max, st, e.env).value.prev).0|))
  }

  /** The canonical form of a payload. */
  ghost function Payload(data: string): string {
    match CanonicalWithoutHmac(data)
    case Some(s) => s
    case None => ""
  }

  ghost function LandedHere(c: Keyed, max: int, st: Log, e: Event): seq<string> {
    if Lands(c, max, st, e) then [Payload(e.data)] else []
  }

  /** The canonical payloads of the writes of a run that land, in order. */
  ghost function Landed(c: Keyed, max: int, st: Log, es: seq<Event>): seq<string>
    decreases |es|
  {
    if es == [] then []
    else LandedHere(c, max, st, es[0]) + Landed(c, max, Step(c, max, st, es[0]), es[1..])
  }

  /** The canonical records on disk, oldest first. */
  ghost function Journal(st: Log): seq<string>
    requires Records(AllLines(st))
  {
    seq(|AllLines(st)|, i requires 0 <= i < |AllLines(st)| => LinkOf(AllLines(st)[i]).canonical)
  }

  // ----- One event -----

  lemma JournalSnoc(st: Log, st': Log, line: string)
    requires Records(AllLines(st)) && IsRecord(line) && AllLines(st') == AllLines(st) + [line]
    ensures Records(AllLines(st')) && Journal(st') == Journal(st) + [LinkOf(line).canonical]
  {
    hide IsRecord, AllLines, LinkOf;
    LinksSnoc(AllLines(st), line);
    assert forall i | 0 <= i < |AllLines(st)| :: AllLines(st')[i] == AllLines(st)[i];
  }

  lemma JournalSame(st: Log, st': Log)
    requires Records(AllLines(st)) && AllLines(st') == AllLines(st)
    ensures Records(AllLines(st')) && Journal(st') == Journal(st)
  {
    hide IsRecord, AllLines, LinkOf, Records;
    assert forall i | 0 <= i < |AllLines(st)| :: AllLines(st')[i] == AllLines(st)[i];
  }

  ghost function Line(c: Keyed, st: Log, data: string): string { LineOf(c, data, st.prev).0 }

  /** The line of an object payload is a record with the payload's canonical form. */
  lemma PayloadLine(c: Keyed, data: string, prev: Digest)
    requires DecodeFirst(data).Some? && DecodeFirst(data).value.Obj?
    ensures var line := LineOf(c, data, prev).0;
            IsRecord(line) && OneLine(line) && LinkOf(line).canonical == Payload(data)
  {
    hide IsRecord, DecodeFirst, Print, Embed, LinkOf;
    var m := DecodeFirst(data).value.fields;
    assert DecodeMap(data) == Some(m);
    MapClean(data);
    EmbedIsRecord(c, m, prev);
    EmbedLink(c, m, prev);
    LineOneLine(Embed(c, m, prev).0);
  }

  lemma EmbedLink(c: Keyed, m: map<string, Value>, prev: Digest)
    requires Clean(Obj(m)) && IsRecord(Embed(c, m, prev).0)
    ensures LinkOf(Embed(c, m, prev).0).canonical == Print(GoMarshal, Obj(m - {HMAC}))
  {
    var (line, mac) := Embed(c, m, prev);
    RecordReads(line);
    StampedReads(m, mac);
    hide IsRecord, ParseValue, Print, StampOf, HexEncode;
    assert m[HMAC := Str(HexEncode(mac))] - {HMAC} == m - {HMAC};
  }

  lemma AppendJournal(c: Keyed, st: Log, data: string, fsync: bool, env: Env)
    requires Sound(c, st) && Live(st) && Plain(data, fsync, env)
    ensures var st' := AppendStep(c, st, data, fsync, env).0;
            Records(AllLines(st'))
            && Journal(st') == Journal(st) + (if env.io.Done? || (env.io.WriteFails? && env.io.n > |Line(c, st, data)|)
                                              then [Payload(data)] else [])
  {
    hide IsRecord, DecodeFirst, Embed, LineOf, Split, LinkOf, Chain, Links, Payload, Journal;
    PayloadLine(c, data, st.prev);
    var line := Line(c, st, data);
    var st' := AppendStep(c, st, data, fsync, env).0;
    var before := st.active.value;
    SplitAppend(before, line);
    assert before + (line + "\n") == before + line + "\n";
    assert "" + line == line;
    if env.io.Done? || (env.io.WriteFails? && env.io.n > |line|) {
      assert (line + "\n")[..|line + "\n"|] == line + "\n";
      assert AllLines(st') == AllLines(st) + [line];
      JournalSnoc(st, st', line);
    } else {
      var part := line[..env.io.n];
      assert (line + "\n")[..env.io.n] == part;
      assert forall ch | ch in part :: ch in line;
      SplitAppend(before, part);
      assert AllLines(st') == AllLines(st);
      JournalSame(st, st');
      assert Journal(st) + [] == Journal(st);
    }
  }

  lemma RotateJournal(c: Keyed, st: Log, env: Env)
    requires Sound(c, st) && Live(st) && KeepsAll(st, env)
    ensures AllLines(RotateStep(c, st, env).0) == AllLines(st)
  {
    hide IsRecord, Records, Links, Split, Chain, SeedOf, Exists, RotatedName, KeepsAll;
    if env.renameOk { RotateKeepsExactly(c, st, env); }
  }

  lemma StartJournal(c: Keyed, st: Log, truncateOk: bool, env: Env)
    ensures AllLines(StartStep(c, st, truncateOk, env).0) == AllLines(st)
  {
    hide IsRecord, Split, Chain, SeedOf, DecodeWhole, Links, Records, Recover;
    RecoverKeepsRecords(Contents(st.active), truncateOk);
    EmptyFile(c);
  }

  lemma WriteJournal(c: Keyed, max: int, st: Log, e: Event)
    requires Sound(c, st) && e.Write? && Plain(e.data, e.fsync, e.env) && KeepsAll(st, e.env)
    ensures Records(AllLines(Step(c, max, st, e)))
    ensures Journal(Step(c, max, st, e)) == Journal(st) + LandedHere(c, max, st, e)
  {
    hide AppendStep, RotateStep, KeepsAll, Plain, AllLines, Journal, Payload, IsRecord, LineOf, Chain, Links, Torn;
    var env, st' := e.env, Step(c, max, st, e);
    var ready := BeforeAppend(c, max, st, env);
    if Live(st) && MustRotate(st, max, env) {
      RotateSound(c, st, env);
      RotateJournal(c, st, env);
      JournalSame(st, RotateStep(c, st, env).0);
    }
    if ready.Some? {
      AppendJournal(c, ready.value, e.data, e.fsync, env);
    } else {
      DegradedSame(st', RotateStep(c, st, env).0, st);
      JournalSame(st, st');
      assert Journal(st) + [] == Journal(st);
    }
  }

  lemma DegradedSame(st': Log, mid: Log, st: Log)
    ensures st' == mid.(degraded := true) ==> AllLines(st') == AllLines(mid)
  {
  }

  lemma StepSound(c: Keyed, max: int, st: Log, e: Event)
    requires Sound(c, st) && Faithful(c, st, e)
    ensures Sound(c, Step(c, max, st, e))
    ensures Records(AllLines(st)) && Records(AllLines(Step(c, max, st, e)))
    ensures Journal(Step(c, max, st, e)) == Journal(st) + LandedHere(c, max, st, e)
  {
    hide WriteStep, StartStep, Plain, KeepsAll, Resumable, Records, Journal, Payload, Lands, Links, Chain;
    assert Journal(st) + [] == Journal(st);
    match e {
      case Write(data, fsync, env) =>
        WriteSound(c, max, st, data, fsync, env);
        WriteJournal(c, max, st, e);
      case Close =>
        JournalSame(st, CloseStep(st));
        CloseLandsNothing(c, max, st, e);
      case Restart(truncateOk, env) =>
        StartSound(c, st, truncateOk, env);
        StartJournal(c, st, truncateOk, env);
        JournalSame(st, StartStep(c, st, truncateOk, env).0);
        CloseLandsNothing(c, max, st, e);
    }
  }

  lemma CloseLandsNothing(c: Keyed, max: int, st: Log, e: Event)
    ensures !e.Write? ==> !Lands(c, max, st, e)
  {
  }

  // ----- Runs -----

  /** Main result.  Every faithful run keeps the chain across all files, and the records on disk are
      exactly the payloads that landed, in order, after those that were there. */
  lemma {:induction false} RunSound(c: Keyed, max: int, st: Log, es: seq<Event>)
    requires Sound(c, st) && FaithfulRun(c, max, st, es)
    ensures Sound(c, Run(c, max, st, es))
    ensures Records(AllLines(st)) && Records(AllLines(Run(c, max, st, es)))
    ensures Journal(Run(c, max, st, es)) == Journal(st) + Landed(c, max, st, es)
    decreases |es|
  {
    hide Step, Sound, Faithful, Records, Journal, LandedHere, AllLines;
    if es == [] {
      SoundRecords(c, st);
      assert Journal(st) + [] == Journal(st);
    } else {
      StepSound(c, max, st, es[0]);
      RunSound(c, max, Step(c, max, st, es[0]), es[1..]);
      var here := LandedHere(c, max, st, es[0]);
      var rest := Landed(c, max, Step(c, max, st, es[0]), es[1..]);
      assert Journal(st) + here + rest == Journal(st) + (here + rest);
    }
  }

  lemma SoundRecords(c: Keyed, st: Log)
    requires Sound(c, st)
    ensures Records(AllLines(st))
  {
  }

  lemma FreshSound(c: Keyed)
    ensures Sound(c, Fresh(c))
    ensures Records(AllLines(Fresh(c))) && Journal(Fresh(c)) == []
    ensures Faithful(c, Fresh(c), Restart(true, Env("", "", true, true, true, Done, true)))
  {
    EmptyFile(c);
    assert AllLines(Fresh(c)) == [];
  }

  lemma {:induction false} RunDistinct(c: Keyed, max: int, st: Log, es: seq<Event>)
    requires Distinct(st.rotated)
    ensures Distinct(Run(c, max, st, es).rotated)
    decreases |es|
  {
    hide Step, Distinct;
    if es != [] {
      StepDistinct(c, max, st, es[0]);
      RunDistinct(c, max, Step(c, max, st, es[0]), es[1..]);
    }
  }

  lemma StepDistinct(c: Keyed, max: int, st: Log, e: Event)
    requires Distinct(st.rotated)
    ensures Distinct(Step(c, max, st, e).rotated)
  {
    hide Distinct, RotateStep, Recover, SeedOf;
    if e.Write? {
      RotateDistinct(c, st, e.env);
    }
  }

  /** From an empty directory: one chain from genesis holding what landed, in files of different names,
      whatever the run. */
  lemma RunFromEmpty(c: Keyed, max: int, es: seq<Event>)
    requires FaithfulRun(c, max, Fresh(c), es)
    ensures var st := Run(c, max, Fresh(c), es);
            Sound(c, st) && Distinct(st.rotated) && ChainedOnDisk(c, st) && Journal(st) == Landed(c, max, Fresh(c), es)
  {
    hide FaithfulRun, Run, Records, Journal, Landed, AllLines, Links, Chain;
    FreshSound(c);
    RunSound(c, max, Fresh(c), es);
    RunDistinct(c, max, Fresh(c), es);
    assert [] + Landed(c, max, Fresh(c), es) == Landed(c, max, Fresh(c), es);
  }

  /** Why failed syncs are left out of the theorem: the record is on disk, but the logger stays live and
      holds the digest before it.  The next record, accepted without a complaint, links to that digest, so
      the two records fork the chain: it does not verify any more, unless the hash is broken. */
  lemma SyncFailureForks(c: Keyed, max: int, st: Log, data: string, env: Env, next: string, fsync: bool, env': Env)
    requires Sound(c, st) && Live(st) && DecodeFirst(data).Some? && DecodeFirst(data).value.Obj?
    requires env.io.Done? && !env.syncOk
    requires Plain(next, fsync, env') && env'.io.Done? && !MustRotate(AppendStep(c, st, data, true, env).0, max, env')
    ensures var failed := AppendStep(c, st, data, true, env).0;
            var (st', ok) := WriteStep(c, max, failed, next, fsync, env');
            ok && Live(failed) && Records(AllLines(st)) && Records(AllLines(st')) && |AllLines(st')| == |AllLines(st)| + 2
            && (ChainedOnDisk(c, st') ==>
                  HashBroken(c, c.genesis, Links(AllLines(st)) + [LinkOf(AllLines(st')[|AllLines(st)| + 1])], Links(AllLines(st'))))
  {
    hide IsRecord, DecodeFirst, Embed, Split, LinkOf, Chain, Links, HashBroken, Sound, AllLines, LineOf, Payload;
    var failed, good := AppendStep(c, st, data, true, env).0, AppendStep(c, st, data, false, env).0;
    SoundOnDisk(c, st);
    AppendSound(c, st, data, false, env);
    SoundOnDisk(c, good);
    var line, more := Line(c, st, data), Line(c, st, next);
    PayloadLine(c, data, st.prev);
    PayloadLine(c, next, st.prev);
    LineLinks(c, next, st.prev);
    LineAppended(st, good, line);
    SameFiles(c, good, failed);
    var st' := WriteStep(c, max, failed, next, fsync, env').0;
    LineAppended(failed, st', more);
    Forks(c, AllLines(st), line, more, AllLines(st'));
  }

  lemma LineLinks(c: Keyed, data: string, prev: Digest)
    requires DecodeFirst(data).Some? && DecodeFirst(data).value.Obj?
    ensures var line := LineOf(c, data, prev).0;
            IsRecord(line) && LinkOf(line).stamp == ComputeEntryHmac(c, prev, LinkOf(line).canonical)
  {
    hide IsRecord, DecodeFirst, Print, Embed, LinkOf;
    var m := DecodeFirst(data).value.fields;
    assert DecodeMap(data) == Some(m);
    MapClean(data);
    EmbedIsRecord(c, m, prev);
  }

  /** A whole line behind whole lines. */
  lemma LineAppended(st: Log, st': Log, line: string)
    requires OneLine(line) && Unfinished(st) == "" && st.active.Some?
    requires st'.rotated == st.rotated && st'.active == Some(st.active.value + (line + "\n"))
    ensures AllLines(st') == AllLines(st) + [line] && Unfinished(st') == ""
  {
    hide Split;
    SplitAppend(st.active.value, line);
    assert st.active.value + (line + "\n") == st.active.value + line + "\n";
    assert "" + line == line;
  }

  /** Two records that link to one digest, one behind the other. */
  lemma Forks(c: Keyed, lines: seq<string>, first: string, second: string, all: seq<string>)
    requires Records(lines) && Chain(c, c.genesis, Links(lines)) && IsRecord(first) && IsRecord(second)
    requires LinkOf(second).stamp == ComputeEntryHmac(c, End(c.genesis, Links(lines)), LinkOf(second).canonical)
    requires all == lines + [first] + [second]
    ensures Records(all) && all[|lines| + 1] == second
    ensures Chain(c, c.genesis, Links(all)) ==> HashBroken(c, c.genesis, Links(lines) + [LinkOf(second)], Links(all))
  {
    hide IsRecord, LinkOf, HashBroken, Links, Chain;
    LinksSnoc(lines, first);
    LinksSnoc(lines + [first], second);
    var k := LinkOf(second);
    ChainConcat(c, c.genesis, Links(lines), [k]);
    OneLink(c, End(c.genesis, Links(lines)), k);
    if Chain(c, c.genesis, Links(all)) {
      SameEndSameChain(c, c.genesis, Links(lines) + [k], Links(all));
      assert |Links(lines) + [k]| < |Links(all)|;
    }
  }

  lemma OneLink(c: Keyed, prev: Digest, k: Link)
    ensures Chain(c, prev, [k]) <==> k.stamp == ComputeEntryHmac(c, prev, k.canonical)
  {
    assert [k][1..] == [];
  }

  lemma SoundOnDisk(c: Keyed, st: Log)
    requires Sound(c, st)
    ensures Records(AllLines(st)) && Chain(c, c.genesis, Links(AllLines(st))) && |Links(AllLines(st))| == |AllLines(st)|
    ensures Live(st) ==> st.active.Some? && !st.stuck && Unfinished(st) == "" && st.prev == End(c.genesis, Links(AllLines(st)))
  {
    hide Chain, Links, IsRecord, AllLines;
  }

  lemma SameFiles(c: Keyed, st: Log, st': Log)
    requires Sound(c, st) && st'.rotated == st.rotated && st'.active == st.active
    ensures AllLines(st') == AllLines(st) && Unfinished(st') == Unfinished(st) && ChainedOnDisk(c, st') && Records(AllLines(st'))
  {
    hide Chain, Links, IsRecord;
  }

  /** An accepted write lands, and a write that does not land is not accepted. */
  lemma AcceptedLands(c: Keyed, max: int, st: Log, e: Event)
    requires e.Write? && WriteStep(c, max, st, e.data, e.fsync, e.env).1
    ensures Lands(c, max, st, e)
  {
    hide RotateStep, LineOf;
  }

  /** Whatever happens to a degraded or closed logger short of a restart, no byte of the directory
      changes and every write is refused. */
  lemma {:induction false} DegradedAbsorbs(c: Keyed, max: int, st: Log, es: seq<Event>)
    requires st.degraded && forall e | e in es :: !e.Restart?
    ensures var st' := Run(c, max, st, es);
            st'.degraded && st'.rotated == st.rotated && st'.active == st.active && st'.prev == st.prev
    ensures forall i | 0 <= i < |es| && es[i].Write? ::
              !WriteStep(c, max, Run(c, max, st, es[..i]), es[i].data, es[i].fsync, es[i].env).1
    decreases |es|
  {
    hide RotateStep, AppendStep;
    if es != [] {
      var mid := Step(c, max, st, es[0]);
      assert es[0] in es && forall e | e in es[1..] :: e in es;
      DegradedAbsorbs(c, max, mid, es[1..]);
      forall i | 0 <= i < |es| && es[i].Write?
        ensures !WriteStep(c, max, Run(c, max, st, es[..i]), es[i].data, es[i].fsync, es[i].env).1
      {
        if i > 0 {
          assert es[..i][0] == es[0] && es[..i][1..] == es[1..][..i - 1];
          assert es[1..][i - 1] == es[i];
        }
      }
    }
  }
}
