/** Whole runs of the audit log: writes, rotations, crashes in the middle of a write, restarts. */
module AuditRuns {
  import opened Json
  import opened GoStrings
  import opened Canonical
  import opened AuditChain
  import opened LogLines
  import opened AuditLog
  import RoundTrip
  import Decoded
  import Scorer

  // ----- Records -----

  /** A line the logger could have written: one object, on one line, with a digest. */
  ghost predicate IsRecord(line: string) {
    && ParseValue(line).Some? && ParseValue(line).value.1 == "" && ParseValue(line).value.0.Obj?
    && StampOf(ParseValue(line).value.0.fields).Some?
    && Decoded.Printable(line) && line[|line| - 1] == '}'
  }

  ghost function Fields(line: string): map<string, Value>
    requires IsRecord(line)
  {
    ParseValue(line).value.0.fields
  }

  ghost function LinkOf(line: string): Link
    requires IsRecord(line)
  {
    Link(StampOf(Fields(line)).value, Print(GoMarshal, Obj(Fields(line) - {HMAC})))
  }

  ghost predicate Records(lines: seq<string>) {
    forall l | l in lines :: IsRecord(l)
  }

  ghost function Links(lines: seq<string>): (r: seq<Link>)
    requires Records(lines)
    ensures |r| == |lines|
    ensures forall i | 0 <= i < |lines| :: r[i] == LinkOf(lines[i])
  {
    seq(|lines|, i requires 0 <= i < |lines| => LinkOf(lines[i]))
  }

  /** The beginning of a record: what a crash in the middle of a write leaves. */
  ghost predicate Torn(tail: string) {
    tail == "" || exists r :: IsRecord(r) && tail <= r
  }

  lemma RecordReads(line: string)
    requires IsRecord(line)
    ensures line[0] == '{' && OneLine(line)
    ensures DecodeWhole(line) == Some(Obj(Fields(line)))
    ensures DecodeMap(line) == Some(Fields(line))
  {
    Scorer.ObjectFirst(line);
    hide ParseValue, StampOf;
    assert SkipSpace(line) == line;
  }

  /** Neither TrimSpace nor TrimRight("\r\n") changes a record, or the beginning of one. */
  lemma RecordTrimmed(line: string)
    requires IsRecord(line)
    ensures TrimSpace(line) == line
  {
    RecordReads(line);
    hide ParseValue, StampOf;
    BracesTrimmed(line, 0);
  }

  lemma {:induction false} BracesTrimmed(s: string, from: nat)
    requires s != "" && s[0] == '{' && s[|s| - 1] == '}'
    ensures LeadingSpace(s, from) == 0 && TrailingSpace(s, from) == 0
    decreases |SPACES| - from
  {
    if from < |SPACES| {
      SpacesAreNotBraces(from);
      BracesTrimmed(s, from + 1);
      EdgesDiffer(s, SPACES[from]);
    }
  }

  lemma EdgesDiffer(s: string, sp: string)
    requires s != "" && sp != "" && s[0] != sp[0] && s[|s| - 1] != sp[|sp| - 1]
    ensures !(sp <= s) && !HasSuffix(s, sp)
  {
    if |sp| <= |s| { assert s[|s| - |sp|..][|sp| - 1] == s[|s| - 1]; }
  }

  lemma SpacesAreNotBraces(i: nat)
    requires i < |SPACES|
    ensures SPACES[i] != "" && SPACES[i][0] != '{' && SPACES[i][|SPACES[i]| - 1] != '}'
  {
  }

  lemma TornTrimmed(tail: string)
    requires Torn(tail)
    ensures TrimEnd(tail) == tail && OneLine(tail)
  {
    if tail != "" {
      var r :| IsRecord(r) && tail <= r;
      hide ParseValue, StampOf;
      assert forall k | 0 <= k < |tail| :: tail[k] == r[k] && r[k] in r;
    }
  }

  /** A record cut short anywhere is not JSON; complete, it is. */
  lemma TornReads(tail: string)
    requires Torn(tail) && tail != ""
    ensures DecodeWhole(tail).Some? ==> IsRecord(tail)
  {
    var r :| IsRecord(r) && tail <= r;
    if |tail| < |r| {
      Scorer.CutObjectUnreadable(r, tail);
    } else {
      assert tail == r;
    }
  }

  /** What embedHMAC produces is a record that links to prev. */
  lemma EmbedIsRecord(c: Keyed, m: map<string, Value>, prev: Digest)
    requires Clean(Obj(m))
    ensures var (line, mac) := Embed(c, m, prev);
            IsRecord(line) && LinkOf(line).stamp == mac
            && mac == ComputeEntryHmac(c, prev, LinkOf(line).canonical)
  {
    hide ParseValue, Print, StampOf, HexEncode;
    var (line, mac) := Embed(c, m, prev);
    var m' := m[HMAC := Str(HexEncode(mac))];
    StampedReads(m, mac);
    StampedClean(m, mac);
    RoundTrip.ValueRoundTrip(GoMarshal, Obj(m'), "");
    assert line + "" == line;
    Decoded.PrintPrintable(GoMarshal, Obj(m'));
    PrintCloses(Obj(m'));
    assert m' - {HMAC} == m - {HMAC};
  }

  lemma StampedClean(m: map<string, Value>, mac: Digest)
    requires Clean(Obj(m))
    ensures Clean(Obj(m[HMAC := Str(HexEncode(mac))]))
  {
    hide HexEncode;
    HexUtf8(mac);
    HmacKeyUtf8();
  }

  lemma PrintCloses(v: Value)
    requires v.Obj?
    ensures var p := Print(GoMarshal, v); p != "" && p[|p| - 1] == '}'
  {
    hide PrintFields;
  }

  // ----- The directory -----

  ghost function RotatedLines(rotated: seq<File>): seq<string> {
    if rotated == [] then [] else Lines(rotated[0].data) + RotatedLines(rotated[1..])
  }

  /** Every complete line on disk, oldest first. */
  ghost function AllLines(st: Log): seq<string> {
    RotatedLines(st.rotated) + Lines(Contents(st.active))
  }

  ghost function Unfinished(st: Log): string {
    Tail(Contents(st.active))
  }

  predicate Live(st: Log) {
    st.open && !st.degraded
  }

  ghost predicate ChainedOnDisk(c: Keyed, st: Log) {
    Records(AllLines(st)) && Chain(c, c.genesis, Links(AllLines(st)))
  }

  ghost function Head(c: Keyed, st: Log): Digest
    requires ChainedOnDisk(c, st)
  {
    End(c.genesis, Links(AllLines(st)))
  }

  /** The logger continues the chain: nothing unfinished on disk, and prev is the last digest. */
  ghost predicate InStep(c: Keyed, st: Log)
    requires ChainedOnDisk(c, st)
  {
    Unfinished(st) == "" && st.prev == Head(c, st)
  }

  /** The invariant: all complete lines on disk are one verified chain from genesis across all files,
      at most the active file ends in the beginning of a record, and a live logger is in step. */
  ghost predicate Sound(c: Keyed, st: Log) {
    && (forall f | f in st.rotated :: Tail(f.data) == "")
    && ChainedOnDisk(c, st)
    && Torn(Unfinished(st))
    && (Live(st) ==> st.active.Some? && !st.stuck && InStep(c, st))
  }

  // ----- Steps -----

  lemma LinksSnoc(lines: seq<string>, l: string)
    requires Records(lines) && IsRecord(l)
    ensures Records(lines + [l]) && Links(lines + [l]) == Links(lines) + [LinkOf(l)]
  {
    hide IsRecord;
  }

  /** One more record, linked to the head. */
  lemma Extend(c: Keyed, st: Log, st': Log, line: string)
    requires ChainedOnDisk(c, st) && IsRecord(line) && AllLines(st') == AllLines(st) + [line]
    requires LinkOf(line).stamp == ComputeEntryHmac(c, Head(c, st), LinkOf(line).canonical)
    ensures ChainedOnDisk(c, st') && Head(c, st') == LinkOf(line).stamp
  {
    hide IsRecord, AllLines, LinkOf;
    LinksSnoc(AllLines(st), line);
    var k := LinkOf(line);
    ChainConcat(c, c.genesis, Links(AllLines(st)), [k]);
    assert Chain(c, Head(c, st), [k]) by { assert [k][1..] == []; }
  }

  /** The writes the theorem is about: an object payload, and no failed flush or sync. */
  predicate Plain(data: string, fsync: bool, env: Env) {
    DecodeFirst(data).Some? && DecodeFirst(data).value.Obj? && !env.io.FlushFails? && (fsync ==> env.syncOk)
  }

  lemma AppendSound(c: Keyed, st: Log, data: string, fsync: bool, env: Env)
    requires Sound(c, st) && Live(st) && Plain(data, fsync, env)
    ensures Sound(c, AppendStep(c, st, data, fsync, env).0)
  {
    hide IsRecord, DecodeFirst, Embed, Records, Links, Split, LinkOf;
    var m := DecodeFirst(data).value.fields;
    var (line, mac) := Embed(c, m, st.prev);
    MapClean(data);
    assert DecodeMap(data) == Some(m);
    EmbedIsRecord(c, m, st.prev);
    LineOneLine(line);
    var before := st.active.value;
    var st' := AppendStep(c, st, data, fsync, env).0;
    assert before + (line + "\n") == before + line + "\n";
    match env.io {
      case Done =>
        FullLine(c, st, st', line);
      case WriteFails(n) =>
        if n > |line| {
          assert (line + "\n")[..|line + "\n"|] == line + "\n";
          FullLine(c, st, st', line);
        } else {
          assert (line + "\n")[..n] == line[..n];
          PartLine(c, st, st', line, n);
        }
    }
  }

  lemma LineOneLine(line: string)
    requires IsRecord(line)
    ensures OneLine(line)
  {
    RecordReads(line);
  }

  lemma FullLine(c: Keyed, st: Log, st': Log, line: string)
    requires Sound(c, st) && Live(st) && IsRecord(line) && OneLine(line)
    requires LinkOf(line).stamp == ComputeEntryHmac(c, st.prev, LinkOf(line).canonical)
    requires st'.rotated == st.rotated && st'.active == Some(st.active.value + line + "\n") && st'.stuck == st.stuck
    requires Live(st') ==> st'.prev == LinkOf(line).stamp
    ensures Sound(c, st')
  {
    hide IsRecord, Records, Links, Split, LinkOf;
    var before := st.active.value;
    SplitAppend(before, line);
    assert "" + line == line;
    assert AllLines(st') == AllLines(st) + [line];
    Extend(c, st, st', line);
  }

  lemma PartLine(c: Keyed, st: Log, st': Log, line: string, n: nat)
    requires Sound(c, st) && Live(st) && IsRecord(line) && OneLine(line) && n <= |line|
    requires st'.rotated == st.rotated && st'.active == Some(st.active.value + line[..n]) && !Live(st')
    ensures Sound(c, st')
  {
    hide IsRecord, Records, Links, Split, LinkOf, Chain;
    var part := line[..n];
    assert forall ch | ch in part :: ch in line;
    SplitAppend(st.active.value, part);
    assert "" + part == part;
    assert AllLines(st') == AllLines(st);
    assert part <= line;
  }

  /** The rotated files of other names. */
  function Without(rotated: seq<File>, name: string): seq<File> {
    if rotated == [] then []
    else (if rotated[0].name == name then [] else [rotated[0]]) + Without(rotated[1..], name)
  }

  lemma {:induction false} PutReplaces(rotated: seq<File>, f: File)
    ensures Put(rotated, f) == Without(rotated, f.name) + [f]
    decreases |rotated|
  {
    if rotated != [] {
      PutReplaces(rotated[1..], f);
      assert [rotated[0]] + Without(rotated[1..], f.name) + [f] == [rotated[0]] + (Without(rotated[1..], f.name) + [f]);
      assert [] + Without(rotated[1..], f.name) == Without(rotated[1..], f.name);
    }
  }

  lemma {:induction false} WithoutFiles(rotated: seq<File>, name: string)
    ensures forall f :: f in Without(rotated, name) <==> f in rotated && f.name != name
    decreases |rotated|
  {
    if rotated != [] {
      WithoutFiles(rotated[1..], name);
      assert rotated == [rotated[0]] + rotated[1..];
    }
  }

  /** No file of this name holds a line. */
  predicate NoLinesIn(rotated: seq<File>, name: string) {
    forall f | f in rotated && f.name == name :: Lines(f.data) == []
  }

  lemma {:induction false} WithoutLines(rotated: seq<File>, name: string)
    ensures NoLinesIn(rotated, name) ==> RotatedLines(Without(rotated, name)) == RotatedLines(rotated)
    ensures |RotatedLines(Without(rotated, name))| <= |RotatedLines(rotated)|
    ensures !NoLinesIn(rotated, name) ==> |RotatedLines(Without(rotated, name))| < |RotatedLines(rotated)|
    decreases |rotated|
  {
    hide Split;
    if rotated != [] {
      var first, rest := rotated[0], rotated[1..];
      WithoutLines(rest, name);
      assert rotated == [first] + rest;
      assert NoLinesIn(rotated, name) <==> (first.name == name ==> Lines(first.data) == []) && NoLinesIn(rest, name);
      var others := Without(rest, name);
      assert [] + others == others && ([first] + others)[1..] == others;
      assert [] + RotatedLines(rest) == RotatedLines(rest);
    }
  }

  lemma {:induction false} RotatedLinesSnoc(rotated: seq<File>, f: File)
    ensures RotatedLines(rotated + [f]) == RotatedLines(rotated) + Lines(f.data)
    decreases |rotated|
  {
    hide Split;
    var all := rotated + [f];
    if rotated == [] {
      assert all == [f] && all[1..] == [] && Lines(f.data) + [] == [] + Lines(f.data);
    } else {
      var first, rest := Lines(rotated[0].data), rotated[1..];
      assert all[0] == rotated[0] && all[1..] == rest + [f];
      RotatedLinesSnoc(rest, f);
      assert first + (RotatedLines(rest) + Lines(f.data)) == first + RotatedLines(rest) + Lines(f.data);
    }
  }

  /** The next rotation replaces no file that holds a line: false only when two rotations of one day fall
      in one millisecond, because os.Rename then overwrites the first one's file. */
  predicate KeepsAll(st: Log, env: Env) {
    NoLinesIn(st.rotated, RotatedName(st.rotated, st.date, env.millis))
  }

  lemma EmptyFile(c: Keyed)
    ensures Lines("") == [] && Tail("") == ""
  {
  }

  lemma RotatedAs(c: Keyed, st: Log, env: Env)
    requires env.renameOk && st.active.Some?
    ensures var st', name := RotateStep(c, st, env).0, RotatedName(st.rotated, st.date, env.millis);
            st'.rotated == Without(st.rotated, name) + [File(name, st.active.value)] && Contents(st'.active) == ""
            && AllLines(st') == RotatedLines(Without(st.rotated, name)) + Lines(st.active.value)
  {
    hide Split, SeedOf, Exists, Without;
    var f := File(RotatedName(st.rotated, st.date, env.millis), st.active.value);
    EmptyFile(c);
    PutReplaces(st.rotated, f);
    RotatedLinesSnoc(Without(st.rotated, f.name), f);
    var st' := RotateStep(c, st, env).0;
    assert RotatedLines(st'.rotated) + [] == RotatedLines(st'.rotated);
  }

  /** A rotation keeps every line on disk exactly if it replaces no file that holds one. */
  lemma RotateKeepsExactly(c: Keyed, st: Log, env: Env)
    requires env.renameOk && st.active.Some?
    ensures AllLines(RotateStep(c, st, env).0) == AllLines(st) <==> KeepsAll(st, env)
    ensures !KeepsAll(st, env) ==> |AllLines(RotateStep(c, st, env).0)| < |AllLines(st)|
  {
    hide Split, RotateStep, RotatedName, RotatedLines, NoLinesIn;
    RotatedAs(c, st, env);
    WithoutLines(st.rotated, RotatedName(st.rotated, st.date, env.millis));
  }

  lemma {:induction false} WithoutDistinct(rotated: seq<File>, name: string)
    requires Distinct(rotated)
    ensures Distinct(Without(rotated, name))
    decreases |rotated|
  {
    if rotated != [] {
      var others := Without(rotated[1..], name);
      WithoutDistinct(rotated[1..], name);
      WithoutFiles(rotated[1..], name);
      forall j | 0 <= j < |others| ensures others[j].name != rotated[0].name {
        assert others[j] in others;
        var i :| 0 <= i < |rotated[1..]| && rotated[1..][i] == others[j];
        assert rotated[i + 1] == others[j];
      }
    }
  }

  /** No rotation leaves two files of one name. */
  lemma RotateDistinct(c: Keyed, st: Log, env: Env)
    requires Distinct(st.rotated)
    ensures Distinct(RotateStep(c, st, env).0.rotated)
  {
    hide Split, SeedOf, Exists, Without, AllLines, RotatedLines;
    if env.renameOk && st.active.Some? {
      var name := RotatedName(st.rotated, st.date, env.millis);
      RotatedAs(c, st, env);
      WithoutDistinct(st.rotated, name);
      WithoutFiles(st.rotated, name);
      var others := Without(st.rotated, name);
      assert forall i | 0 <= i < |others| :: others[i] in others;
    }
  }

  /** The case that fails: a third rotation of a date in the millisecond of the second. */
  lemma SameMillisecondLoses(c: Keyed, st: Log, env: Env, second: File)
    requires env.renameOk && st.active.Some? && Exists(st.rotated, "audit-" + st.date + ".jsonl")
    requires second in st.rotated && second.name == "audit-" + st.date + "-" + env.millis + ".jsonl" && Lines(second.data) != []
    ensures |AllLines(RotateStep(c, st, env).0)| < |AllLines(st)|
  {
    hide Split, RotateStep, AllLines;
    assert !KeepsAll(st, env);
    RotateKeepsExactly(c, st, env);
  }

  /** A rotation that replaces no record, successful or not, keeps the chain; a successful one leaves the
      logger in step. */
  lemma RotateSound(c: Keyed, st: Log, env: Env)
    requires Sound(c, st) && Live(st) && KeepsAll(st, env)
    ensures Sound(c, RotateStep(c, st, env).0.(degraded := true))
    ensures RotateStep(c, st, env).1 ==> Sound(c, RotateStep(c, st, env).0) && Live(RotateStep(c, st, env).0)
  {
    hide Sound, AllLines, KeepsAll, Live;
    RotateShape(c, st, env);
    var (st', ok) := RotateStep(c, st, env);
    SameChainSound(c, st, st'.(degraded := true));
    if ok { SameChainSound(c, st, st'); }
  }

  lemma RotateShape(c: Keyed, st: Log, env: Env)
    requires Sound(c, st) && Live(st) && KeepsAll(st, env)
    ensures var (st', ok) := RotateStep(c, st, env);
            AllLines(st') == AllLines(st) && AllLines(st'.(degraded := true)) == AllLines(st)
            && (forall f | f in st'.rotated :: Tail(f.data) == "") && Torn(Unfinished(st'))
            && !Live(st'.(degraded := true))
            && (ok ==> Live(st') && st'.active.Some? && !st'.stuck && Unfinished(st') == "" && st'.prev == st.prev)
  {
    hide IsRecord, Records, Links, Split, Chain, SeedOf, Exists, Without, RotatedLines, NoLinesIn;
    EmptyFile(c);
    if env.renameOk {
      RotatedAs(c, st, env);
      RotateKeepsExactly(c, st, env);
      WithoutFiles(st.rotated, RotatedName(st.rotated, st.date, env.millis));
    }
  }

  /** The same lines, and a logger that is where it was. */
  lemma SameChainSound(c: Keyed, st: Log, st': Log)
    requires Sound(c, st) && AllLines(st') == AllLines(st)
    requires (forall f | f in st'.rotated :: Tail(f.data) == "") && Torn(Unfinished(st'))
    requires Live(st') ==> Live(st) && st'.active.Some? && !st'.stuck && Unfinished(st') == "" && st'.prev == st.prev
    ensures Sound(c, st')
  {
    hide IsRecord, Links, Chain, AllLines, Torn, Split;
  }

  /** And only then, unless the hash is broken: with a record lost the logger continues a chain that is
      not the one on disk. */
  lemma RotateExactly(c: Keyed, st: Log, env: Env)
    requires Sound(c, st) && Live(st) && RotateStep(c, st, env).1
    ensures KeepsAll(st, env) ==> Sound(c, RotateStep(c, st, env).0)
    ensures Sound(c, RotateStep(c, st, env).0) ==>
              KeepsAll(st, env) || HashBroken(c, c.genesis, Links(AllLines(st)), Links(AllLines(RotateStep(c, st, env).0)))
  {
    hide IsRecord, Split, Chain, SeedOf, Exists, AllLines, KeepsAll, HashBroken, Links;
    var st' := RotateStep(c, st, env).0;
    RotateKeepsExactly(c, st, env);
    if KeepsAll(st, env) {
      RotateSound(c, st, env);
    } else if Sound(c, st') {
      SameEndSameChain(c, c.genesis, Links(AllLines(st)), Links(AllLines(st')));
      assert |Links(AllLines(st'))| < |Links(AllLines(st))|;
    }
  }

  lemma WriteSound(c: Keyed, max: int, st: Log, data: string, fsync: bool, env: Env)
    requires Sound(c, st) && Plain(data, fsync, env) && KeepsAll(st, env)
    ensures Sound(c, WriteStep(c, max, st, data, fsync, env).0)
  {
    hide AppendStep, RotateStep, Sound, KeepsAll, Plain;
    if Live(st) {
      if MustRotate(st, max, env) {
        RotateSound(c, st, env);
        if RotateStep(c, st, env).1 { AppendSound(c, RotateStep(c, st, env).0, data, fsync, env); }
      } else {
        AppendSound(c, st, data, fsync, env);
      }
    }
  }

  // ----- Restart -----

  /** readChainSeedFromFile over records finds the digest of the last one that json.Unmarshal accepts. */
  lemma {:induction false} SeedOfRecords(c: Keyed, ls: seq<string>)
    requires Records(ls)
    ensures (SeedOf(c, ls) == None && forall k | 0 <= k < |ls| :: !Fits(c, Obj(Fields(ls[k]))))
            || exists k :: 0 <= k < |ls| && Fits(c, Obj(Fields(ls[k]))) && SeedOf(c, ls) == Some(LinkOf(ls[k]).stamp)
                           && forall j | k < j < |ls| :: !Fits(c, Obj(Fields(ls[j])))
    decreases |ls|
  {
    hide IsRecord, Fits, SeedOf, Fields, StampOf, TrimSpace, DecodeWhole, Print;
    if ls == [] {
      SeedNone(c);
    } else {
      var n := |ls| - 1;
      var l := ls[n];
      assert ls == ls[..n] + [l];
      SeedOfRecords(c, ls[..n]);
      SeedStep(c, ls[..n], l);
      SeedOfRecord(c, l);
      if !Fits(c, Obj(Fields(l))) {
        assert SeedOf(c, ls) == SeedOf(c, ls[..n]);
        assert forall k | 0 <= k < n :: ls[..n][k] == ls[k];
      }
    }
  }

  lemma SeedOfRecord(c: Keyed, l: string)
    requires IsRecord(l)
    ensures TrimSpace(l) == l && l != ""
    ensures UnmarshalMap(c, l) == if Fits(c, Obj(Fields(l))) then Some(Fields(l)) else None
    ensures StampOf(Fields(l)) == Some(LinkOf(l).stamp)
  {
    RecordTrimmed(l);
    RecordReads(l);
    hide ParseValue, StampOf, TrimSpace, DecodeWhole, Fits;
  }

  /** The line that decides the seed. */
  ghost predicate LastFits(c: Keyed, lines: seq<string>)
    requires Records(lines)
  {
    lines != [] ==> Fits(c, Obj(Fields(lines[|lines| - 1])))
  }

  lemma RecordsConcat(a: seq<string>, b: seq<string>)
    ensures Records(a + b) <==> Records(a) && Records(b)
    ensures Records(a + b) ==> Links(a + b) == Links(a) + Links(b)
  {
    hide IsRecord;
    if Records(a + b) {
      assert forall l | l in a :: l in a + b;
      assert forall l | l in b :: l in a + b;
    }
  }

  /** A directory a new process continues without breaking the chain: audit.jsonl ends in a whole
      record, or in a piece that is not JSON behind at least one whole record; it is not empty if
      older files hold records; and its last record holds no number beyond float64. */
  ghost predicate Resumable(c: Keyed, st: Log, truncateOk: bool)
    requires Records(Lines(Contents(st.active)))
  {
    var ls, tail := Lines(Contents(st.active)), Unfinished(st);
    && (tail == "" || (ls != [] && DecodeWhole(tail) == None && truncateOk))
    && (ls == [] ==> RotatedLines(st.rotated) == [])
    && LastFits(c, ls)
  }

  lemma Restarted(c: Keyed, st: Log, truncateOk: bool, env: Env)
    requires Sound(c, st) && env.openOk && env.statOk
    ensures var (st', ok) := StartStep(c, st, truncateOk, env);
            ok && Live(st') && !st'.stuck && st'.active.Some? && st'.rotated == st.rotated
            && AllLines(st') == AllLines(st)
            && Lines(Contents(st'.active)) == Lines(Contents(st.active))
            && Torn(Unfinished(st'))
            && (Unfinished(st') == "" <==> (Unfinished(st) == "" || (Lines(Contents(st.active)) != []
                  && DecodeWhole(Unfinished(st)) == None && truncateOk)))
            && st'.prev == (match SeedOf(c, Segments(Contents(st'.active))) case Some(d) => d case None => c.genesis)
  {
    hide IsRecord, Records, Links, Split, Chain, SeedOf, DecodeWhole, TrimEnd;
    var d := Contents(st.active);
    RecoverKeepsRecords(d, truncateOk);
    TornTrimmed(Unfinished(st));
    SplitJoin(d);
    SeedEmpty(c);
    assert Recover("", truncateOk) == "" by { EmptyFile(c); }
    if Lines(d) != [] && Tail(d) != "" && DecodeWhole(Tail(d)) == None && truncateOk {
      assert Recover(d, truncateOk) == Join(Lines(d));
      JoinSplit(Lines(d));
    }
  }

  /** The seed found in a file without an unfinished end. */
  lemma WholeFileSeed(c: Keyed, data: string)
    requires Tail(data) == ""
    ensures SeedOf(c, Segments(data)) == SeedOf(c, Lines(data))
  {
    hide Split, SeedOf, TrimSpace, UnmarshalMap;
    SeedStep(c, Lines(data), "");
    TrimEmpty();
  }

  lemma HeadOfActive(c: Keyed, st: Log)
    requires ChainedOnDisk(c, st) && Lines(Contents(st.active)) != []
    ensures Records(Lines(Contents(st.active)))
    ensures Head(c, st) == LinkOf(Lines(Contents(st.active))[|Lines(Contents(st.active))| - 1]).stamp
  {
    hide IsRecord, Split, LinkOf, RotatedLines;
    RecordsConcat(RotatedLines(st.rotated), Lines(Contents(st.active)));
  }

  /** A restart over a resumable directory continues the chain. */
  lemma StartSound(c: Keyed, st: Log, truncateOk: bool, env: Env)
    requires Sound(c, st)
    requires Records(Lines(Contents(st.active))) && Resumable(c, st, truncateOk)
    ensures Sound(c, StartStep(c, st, truncateOk, env).0)
  {
    hide IsRecord, Split, Chain, SeedOf, DecodeWhole, Fits, LinkOf, Recover, Links, Records;
    var (st', ok) := StartStep(c, st, truncateOk, env);
    if env.openOk && env.statOk {
      Restarted(c, st, truncateOk, env);
      var ls := Lines(Contents(st'.active));
      WholeFileSeed(c, Contents(st'.active));
      SeedOfRecords(c, ls);
      if ls == [] {
        assert AllLines(st) == [];
      } else {
        HeadOfActive(c, st);
        HeadOfActive(c, st');
      }
    } else {
      FailedStart(c, st, truncateOk, env);
    }
  }

  lemma FailedStart(c: Keyed, st: Log, truncateOk: bool, env: Env)
    requires Sound(c, st) && !(env.openOk && env.statOk)
    ensures Sound(c, StartStep(c, st, truncateOk, env).0)
  {
    hide IsRecord, Split, Chain, SeedOf, DecodeWhole, Links, Records, Recover;
    var st' := StartStep(c, st, truncateOk, env).0;
    var d := Contents(st.active);
    RecoverKeepsRecords(d, truncateOk);
    EmptyFile(c);
    assert AllLines(st') == AllLines(st);
    assert Torn(Unfinished(st'));
  }

  /** The condition is exact: a restart that leaves the logger in step had a resumable directory,
      unless two stretches of the log itself break the hash. */
  lemma StartExact(c: Keyed, st: Log, truncateOk: bool, env: Env)
    requires Sound(c, st) && env.openOk && env.statOk
    requires Records(Lines(Contents(st.active)))
    requires ChainedOnDisk(c, StartStep(c, st, truncateOk, env).0) && InStep(c, StartStep(c, st, truncateOk, env).0)
    ensures Resumable(c, st, truncateOk)
            || exists k :: 0 <= k < |AllLines(st)| && Records(AllLines(st)[..k])
                           && HashBroken(c, c.genesis, Links(AllLines(st)[..k]), Links(AllLines(st)))
  {
    hide IsRecord, Split, Chain, SeedOf, DecodeWhole, Fits, LinkOf, Recover, Links, HashBroken, StartStep;
    var st' := StartStep(c, st, truncateOk, env).0;
    Restarted(c, st, truncateOk, env);
    var all := AllLines(st);
    var ls := Lines(Contents(st.active));
    var old' := RotatedLines(st.rotated);
    WholeFileSeed(c, Contents(st'.active));
    SeedOfRecords(c, ls);
    if ls == [] {
      assert SeedOf(c, ls) == None;
      if old' != [] { Repeats(c, st, 0); }
    } else if !LastFits(c, ls) {
      HeadOfActive(c, st');
      if SeedOf(c, ls) == None {
        Repeats(c, st, 0);
      } else {
        var k :| 0 <= k < |ls| && Fits(c, Obj(Fields(ls[k]))) && SeedOf(c, ls) == Some(LinkOf(ls[k]).stamp)
                           && forall j | k < j < |ls| :: !Fits(c, Obj(Fields(ls[j])));
        assert k < |ls| - 1;
        assert all[..|old'| + k + 1][|old'| + k] == ls[k];
        Repeats(c, st, |old'| + k + 1);
      }
    }
  }

  /** The digest the chain had before record n is also its last digest. */
  lemma Repeats(c: Keyed, st: Log, n: nat)
    requires Sound(c, st) && n < |AllLines(st)|
    requires Head(c, st) == if n == 0 then c.genesis else LinkOf(AllLines(st)[n - 1]).stamp
    ensures Records(AllLines(st)[..n])
    ensures HashBroken(c, c.genesis, Links(AllLines(st)[..n]), Links(AllLines(st)))
  {
    hide IsRecord, Split, HashBroken, LinkOf, AllLines, Chain;
    var all := AllLines(st);
    assert all == all[..n] + all[n..];
    RecordsConcat(all[..n], all[n..]);
    ChainConcat(c, c.genesis, Links(all[..n]), Links(all[n..]));
    SameEndSameChain(c, c.genesis, Links(all[..n]), Links(all));
  }
}
