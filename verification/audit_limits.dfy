/** Inputs on which the audit log does not do what is asked of it. */
module AuditLimits {
  import opened Json
  import opened Canonical
  import opened AuditChain
  import opened LogLines
  import opened AuditLog
  import opened AuditVerify
  import opened AuditDirectory
  import opened AuditOrder
  import R = AuditRuns
  import T = AuditTraces
  import RoundTrip
  import Decoded

  // ----- A record too long for the verifier -----

  /** Escaping never makes a text shorter. */
  lemma {:induction false} EscapeLength(style: Style, s: string)
    ensures |Escape(style, s)| >= |s|
    decreases |s|
  {
    hide RuneSize;
    if s != "" { EscapeLength(style, s[HeadSize(s)..]); }
  }

  lemma {:induction false} FieldLength(style: Style, v: Value, ks: seq<string>, k: string)
    requires v.Obj? && (forall x | x in ks :: x in v.fields) && k in ks
    ensures |PrintFields(style, v, ks)| >= |PrintField(style, k, v.fields[k])|
    decreases |ks|
  {
    hide PrintField, Escape;
    if ks[0] != k {
      assert ks == [ks[0]] + ks[1..];
      FieldLength(style, v, ks[1..], k);
    }
  }

  /** A member with a long string makes a long line. */
  lemma LongLine(c: Keyed, m: map<string, Value>, k: string, prev: Digest)
    requires k in m && k != HMAC && m[k].Str? && |m[k].s| >= LIMIT
    ensures |Embed(c, m, prev).0| >= LIMIT
  {
    hide PrintFields, SortedKeys, Escape, HexEncode;
    var m' := m[HMAC := Str(HexEncode(Embed(c, m, prev).1))];
    SortedKeysHave(m'.Keys);
    FieldLength(GoMarshal, Obj(m'), SortedKeys(m'.Keys), k);
    EscapeLength(GoMarshal, m[k].s);
  }

  lemma SortedKeysHave(ks: set<string>)
    ensures forall k :: k in SortedKeys(ks) <==> k in ks
  {
    assert forall k :: k in SortedKeys(ks) <==> k in KeySet(SortedKeys(ks));
  }

  /** A payload that holds a string of LIMIT bytes is accepted, and afterwards the directory does not
      verify any more, although the chain is sound. */
  lemma LongRecordRejected(c: Keyed, st: Log, data: string, k: string, env: Env)
    requires R.Sound(c, st) && R.Live(st) && Distinct(st.rotated) && R.Plain(data, false, env) && env.io.Done?
    requires DecodeMap(data).Some? && k in DecodeMap(data).value && k != HMAC
    requires DecodeMap(data).value[k].Str? && |DecodeMap(data).value[k].s| >= LIMIT
    ensures var (st', ok) := AppendStep(c, st, data, false, env);
            ok && R.Sound(c, st') && !IntactFiles(c, c.genesis, DirOrder(st'.rotated, st'.active))
  {
    hide R.Sound, DecodeFirst, Embed, R.AllLines, R.Unfinished, Distinct, IntactFiles, DirOrder, InOrder, R.IsRecord, R.LinkOf,
      T.Payload, FileLinks, CreationOrder;
    var st' := AppendStep(c, st, data, false, env).0;
    R.AppendSound(c, st, data, false, env);
    T.SoundOnDisk(c, st);
    T.PayloadLine(c, data, st.prev);
    var line := LineOf(c, data, st.prev).0;
    LongLine(c, DecodeMap(data).value, k, st.prev);
    T.LineAppended(st, st', line);
    assert line in R.AllLines(st');
    VerifyDirExact(c, st');
  }

  /** There is such a payload. */
  lemma LongPayload() returns (data: string)
    ensures DecodeMap(data).Some? && "a" in DecodeMap(data).value && DecodeMap(data).value["a"].Str?
    ensures |DecodeMap(data).value["a"].s| >= LIMIT && DecodeFirst(data).Some? && DecodeFirst(data).value.Obj?
  {
    hide Print, DecodeFirst;
    var text := seq(LIMIT, i requires 0 <= i < LIMIT => 'x');
    var m := map["a" := Str(text)];
    AllXs(text);
    AllXs("a");
    data := Print(GoMarshal, Obj(m));
    RoundTrip.PrintThenRead(GoMarshal, Obj(m));
  }

  lemma {:induction false} AllXs(s: string)
    requires forall k | 0 <= k < |s| :: s[k] == 'x' || s[k] == 'a'
    ensures ValidUtf8(s)
    decreases |s|
  {
    if s != "" { AllXs(s[1..]); }
  }

  // ----- The payload null -----

  /** The text that embedHMAC's precondition shuts out decodes, to null. */
  lemma NullPayload()
    ensures DecodeFirst("null") == Some(Null)
  {
    RoundTrip.PrintThenRead(GoMarshal, Null);
  }

  // ----- A restart right after a rotation -----

  /** A process that stops between a rotation and the next write leaves an empty audit.jsonl behind files
      with records: the next one resumes at genesis, out of step with the chain unless the hash is broken. */
  lemma RestartAfterRotation(c: Keyed, st: Log, env: Env, truncateOk: bool, env': Env)
    requires R.Sound(c, st) && R.Live(st) && R.KeepsAll(st, env) && env.renameOk && RotateStep(c, st, env).1
    requires R.AllLines(st) != [] && env'.openOk && env'.statOk
    ensures var st1 := RotateStep(c, st, env).0;
            var (st2, ok) := StartStep(c, st1, truncateOk, env');
            ok && st2.prev == c.genesis && R.ChainedOnDisk(c, st2)
            && (R.InStep(c, st2) ==> HashBroken(c, c.genesis, [], R.Links(R.AllLines(st2))))
  {
    hide R.Sound, R.AllLines, R.KeepsAll, R.Live, R.Links, R.Records, HashBroken, Chain, RotateStep, StartStep, SeedOf, R.Unfinished,
      Split, R.RotatedLines, R.Without;
    var st1 := RotateStep(c, st, env).0;
    T.SoundOnDisk(c, st);
    R.RotateSound(c, st, env);
    R.RotatedAs(c, st, env);
    R.RotateKeepsExactly(c, st, env);
    R.Restarted(c, st1, truncateOk, env');
    T.SoundOnDisk(c, st1);
    var st2 := StartStep(c, st1, truncateOk, env').0;
    EmptyStarts(c, st1, truncateOk, env');
    if R.InStep(c, st2) { SameEndSameChain(c, c.genesis, [], R.Links(R.AllLines(st2))); }
  }

  lemma EmptyStarts(c: Keyed, st: Log, truncateOk: bool, env: Env)
    requires Contents(st.active) == "" && env.openOk && env.statOk
    ensures StartStep(c, st, truncateOk, env).0.prev == c.genesis && Chain(c, c.genesis, [])
  {
    hide SeedOf, Segments, Split;
    R.EmptyFile(c);
    SeedEmpty(c);
  }
}
