/** pkg/audit/verify.go: the order in which VerifyDir reads rotated files.  The comment there says that
    sorting names gives the order of creation, also for files with a millisecond suffix.  It does
    not: '-' sorts before '.', so the second file of a day comes before the first. */
module AuditOrder {
  import opened Json
  import opened Canonical
  import opened AuditChain
  import opened LogLines
  import opened AuditLog
  import opened AuditVerify
  import opened AuditDirectory
  import R = AuditRuns
  import T = AuditTraces

  predicate HasLines(data: string) {
    Lines(data) != []
  }

  /** The files that hold records were made in the order of their names. */
  predicate InOrder(rotated: seq<File>) {
    forall i, j | 0 <= i < j < |rotated| && HasLines(rotated[i].data) && HasLines(rotated[j].data) ::
      Leq(rotated[i].name, rotated[j].name)
  }

  // ----- In order: the directory reads as written -----

  function Filled(rotated: seq<File>): seq<File> {
    if rotated == [] then []
    else (if HasLines(rotated[0].data) then [rotated[0]] else []) + Filled(rotated[1..])
  }

  function FilledKeys(rotated: seq<File>, ks: seq<string>): seq<string> {
    if ks == [] then []
    else (if HasLines(DataOf(rotated, ks[0])) then [ks[0]] else []) + FilledKeys(rotated, ks[1..])
  }

  ghost function ByName(rotated: seq<File>, ks: seq<string>): seq<string> {
    seq(|ks|, i requires 0 <= i < |ks| => DataOf(rotated, ks[i]))
  }

  lemma NoLines(data: string)
    requires Terminated(data) && !HasLines(data)
    ensures LinksOf(Rows(data)) == []
  {
    SplitJoin(data);
    assert Join([]) == "";
    assert Pieces(data) == [];
  }

  lemma {:induction false} FilledLinks(rotated: seq<File>)
    requires AllTerminated(Datas(rotated))
    ensures FileLinks(Datas(rotated)) == FileLinks(Datas(Filled(rotated)))
    decreases |rotated|
  {
    hide Terminated, HasLines, LinksOf, Rows;
    if rotated != [] {
      var d := rotated[0].data;
      assert Datas(rotated) == [d] + Datas(rotated[1..]);
      FilledLinks(rotated[1..]);
      if HasLines(d) {
        assert Filled(rotated) == [rotated[0]] + Filled(rotated[1..]);
        assert Datas(Filled(rotated)) == [d] + Datas(Filled(rotated[1..]));
      } else {
        NoLines(d);
        assert Filled(rotated) == Filled(rotated[1..]);
        assert [] + FileLinks(Datas(rotated[1..])) == FileLinks(Datas(rotated[1..]));
      }
    }
  }

  lemma {:induction false} FilledKeyLinks(rotated: seq<File>, ks: seq<string>)
    requires AllTerminated(ByName(rotated, ks))
    ensures FileLinks(ByName(rotated, ks)) == FileLinks(ByName(rotated, FilledKeys(rotated, ks)))
    decreases |ks|
  {
    hide Terminated, HasLines, LinksOf, Rows, DataOf;
    if ks != [] {
      var d := DataOf(rotated, ks[0]);
      assert ByName(rotated, ks) == [d] + ByName(rotated, ks[1..]);
      FilledKeyLinks(rotated, ks[1..]);
      if HasLines(d) {
        assert FilledKeys(rotated, ks) == [ks[0]] + FilledKeys(rotated, ks[1..]);
        assert ByName(rotated, FilledKeys(rotated, ks)) == [d] + ByName(rotated, FilledKeys(rotated, ks[1..]));
      } else {
        NoLines(d);
        assert FilledKeys(rotated, ks) == FilledKeys(rotated, ks[1..]);
        assert [] + FileLinks(ByName(rotated, ks[1..])) == FileLinks(ByName(rotated, ks[1..]));
      }
    }
  }

  lemma {:induction false} FilledKeysIncreasing(rotated: seq<File>, ks: seq<string>)
    requires Increasing(ks)
    ensures Increasing(FilledKeys(rotated, ks))
    ensures forall k :: k in FilledKeys(rotated, ks) <==> k in ks && HasLines(DataOf(rotated, k))
    decreases |ks|
  {
    hide Leq, HasLines, DataOf;
    if ks != [] {
      FilledKeysIncreasing(rotated, ks[1..]);
      var t := FilledKeys(rotated, ks[1..]);
      assert ks == [ks[0]] + ks[1..];
      forall j | 0 <= j < |t| ensures Leq(ks[0], t[j]) && ks[0] != t[j] {
        assert t[j] in t;
        var i :| 0 <= i < |ks[1..]| && ks[1..][i] == t[j];
        assert ks[i + 1] == t[j];
      }
    }
  }

  lemma {:induction false} DataOfFile(rotated: seq<File>, i: nat)
    requires Distinct(rotated) && i < |rotated|
    ensures DataOf(rotated, rotated[i].name) == rotated[i].data
    decreases |rotated|
  {
    if i > 0 {
      assert rotated[0].name != rotated[i].name;
      DataOfFile(rotated[1..], i - 1);
    }
  }

  lemma {:induction false} FilledFiles(rotated: seq<File>)
    ensures forall f :: f in Filled(rotated) <==> f in rotated && HasLines(f.data)
    decreases |rotated|
  {
    hide HasLines;
    if rotated != [] {
      FilledFiles(rotated[1..]);
      assert rotated == [rotated[0]] + rotated[1..];
    }
  }

  lemma OrderedTail(rotated: seq<File>)
    requires rotated != [] && Distinct(rotated) && InOrder(rotated)
    ensures Distinct(rotated[1..]) && InOrder(rotated[1..])
    ensures forall f | f in rotated[1..] :: f.name != rotated[0].name
    ensures forall f | f in rotated[1..] && HasLines(rotated[0].data) && HasLines(f.data) :: Leq(rotated[0].name, f.name)
  {
    hide HasLines, Leq;
    assert forall i | 0 <= i < |rotated| - 1 :: rotated[1..][i] == rotated[i + 1];
  }

  lemma NothingIncreasing(ks: seq<string>)
    ensures |ks| == 0 ==> Increasing(ks)
  {
  }

  lemma ConsIncreasing(k: string, t: seq<string>)
    requires Increasing(t) && forall j | 0 <= j < |t| :: Leq(k, t[j]) && k != t[j]
    ensures Increasing([k] + t)
  {
    hide Leq;
  }

  lemma {:induction false} FilledIncreasing(rotated: seq<File>)
    requires Distinct(rotated) && InOrder(rotated)
    ensures Increasing(Names(Filled(rotated)))
    decreases |rotated|
  {
    hide HasLines, Leq, Distinct, InOrder, Increasing;
    if rotated == [] {
      NothingIncreasing(Names(Filled(rotated)));
    } else {
      OrderedTail(rotated);
      FilledIncreasing(rotated[1..]);
      FilledFiles(rotated[1..]);
      var t := Filled(rotated[1..]);
      if HasLines(rotated[0].data) {
        assert Names(Filled(rotated)) == [rotated[0].name] + Names(t);
        assert forall j | 0 <= j < |t| :: t[j] in t;
        ConsIncreasing(rotated[0].name, Names(t));
      } else {
        assert Filled(rotated) == t;
      }
    }
  }

  /** With names in order, reading by name is reading in the order of creation. */
  lemma ReadsAsWritten(rotated: seq<File>)
    requires Distinct(rotated) && InOrder(rotated) && AllTerminated(Datas(rotated))
    ensures var ks := SortedKeys(KeySet(Names(rotated)));
            AllTerminated(ByName(rotated, ks)) && FileLinks(ByName(rotated, ks)) == FileLinks(Datas(rotated))
  {
    hide Terminated, HasLines, FileLinks, Increasing, DataOf, SortedKeys, InOrder, Distinct, FilledKeys, Filled;
    var ks := SortedKeys(KeySet(Names(rotated)));
    KeyFiles(rotated);
    FilledLinks(rotated);
    FilledKeyLinks(rotated, ks);
    FilledKeysIncreasing(rotated, ks);
    FilledIncreasing(rotated);
    SameFilled(rotated, ks);
    IncreasingUnique(Names(Filled(rotated)), FilledKeys(rotated, ks));
    FilledByName(rotated);
  }

  lemma KeyFiles(rotated: seq<File>)
    requires Distinct(rotated)
    ensures var ks := SortedKeys(KeySet(Names(rotated)));
            (forall k :: k in ks <==> exists i :: 0 <= i < |rotated| && rotated[i].name == k)
            && (forall d | d in ByName(rotated, ks) :: d in Datas(rotated))
            && (forall d | d in Datas(rotated) :: d in ByName(rotated, ks))
  {
    hide DataOf, Increasing, SortedKeys, Distinct;
    var ks := SortedKeys(KeySet(Names(rotated)));
    assert forall k :: k in ks <==> k in KeySet(ks);
    assert forall k :: k in Names(rotated) <==> k in KeySet(ks);
    forall i | 0 <= i < |ks| ensures ByName(rotated, ks)[i] in Datas(rotated) {
      assert ks[i] in Names(rotated);
      var j :| 0 <= j < |rotated| && Names(rotated)[j] == ks[i];
      DataOfFile(rotated, j);
      assert Datas(rotated)[j] == ByName(rotated, ks)[i];
    }
    forall i | 0 <= i < |rotated| ensures Datas(rotated)[i] in ByName(rotated, ks) {
      assert Names(rotated)[i] in ks;
      var j :| 0 <= j < |ks| && ks[j] == rotated[i].name;
      DataOfFile(rotated, i);
      assert ByName(rotated, ks)[j] == Datas(rotated)[i];
    }
    forall k ensures k in ks <==> exists i :: 0 <= i < |rotated| && rotated[i].name == k {
      if k in ks {
        assert k in Names(rotated);
        var j :| 0 <= j < |rotated| && Names(rotated)[j] == k;
        assert rotated[j].name == k;
      }
      if i :| 0 <= i < |rotated| && rotated[i].name == k { assert Names(rotated)[i] == k; }
    }
  }

  lemma SameFilled(rotated: seq<File>, ks: seq<string>)
    requires Distinct(rotated) && ks == SortedKeys(KeySet(Names(rotated)))
    requires forall k :: k in FilledKeys(rotated, ks) <==> k in ks && HasLines(DataOf(rotated, k))
    ensures KeySet(Names(Filled(rotated))) == KeySet(FilledKeys(rotated, ks))
  {
    hide HasLines, DataOf, Increasing, SortedKeys, Distinct, FilledKeys, Filled;
    KeyFiles(rotated);
    FilledFiles(rotated);
    var fs := Filled(rotated);
    forall k ensures k in Names(fs) <==> k in FilledKeys(rotated, ks) {
      if k in Names(fs) {
        var i :| 0 <= i < |fs| && Names(fs)[i] == k;
        assert fs[i] in fs;
        var j :| 0 <= j < |rotated| && rotated[j] == fs[i];
        DataOfFile(rotated, j);
      }
      if k in FilledKeys(rotated, ks) {
        var j :| 0 <= j < |rotated| && rotated[j].name == k;
        DataOfFile(rotated, j);
        assert rotated[j] in fs;
        var i :| 0 <= i < |fs| && fs[i] == rotated[j];
        assert Names(fs)[i] == k;
      }
    }
  }

  lemma FilledByName(rotated: seq<File>)
    requires Distinct(rotated)
    ensures ByName(rotated, Names(Filled(rotated))) == Datas(Filled(rotated))
  {
    hide HasLines, DataOf, Distinct, Filled;
    FilledFiles(rotated);
    var fs := Filled(rotated);
    forall i | 0 <= i < |fs| ensures DataOf(rotated, fs[i].name) == fs[i].data {
      assert fs[i] in fs;
      var j :| 0 <= j < |rotated| && rotated[j] == fs[i];
      DataOfFile(rotated, j);
    }
  }

  // ----- Out of order: the directory does not verify -----

  lemma {:induction false} FileWithin(files: seq<string>, f: string)
    requires f in files
    ensures forall k | k in LinksOf(Rows(f)) :: k in FileLinks(files)
    decreases |files|
  {
    hide LinksOf, Rows;
    if files[0] != f { FileWithin(files[1..], f); }
  }

  lemma {:induction false} LinksWithin(fs: seq<string>, gs: seq<string>)
    requires forall f | f in fs :: f in gs
    ensures forall k | k in FileLinks(fs) :: k in FileLinks(gs)
    decreases |fs|
  {
    hide LinksOf, Rows;
    if fs != [] {
      assert fs[0] in fs && forall f | f in fs[1..] :: f in fs;
      FileWithin(gs, fs[0]);
      LinksWithin(fs[1..], gs);
    }
  }

  /** Where the records of file i begin. */
  lemma FileAt(files: seq<string>, i: nat)
    requires i < |files| && LinksOf(Rows(files[i])) != []
    ensures |FileLinks(files[..i])| < |FileLinks(files[..i + 1])| <= |FileLinks(files)|
    ensures FileLinks(files)[|FileLinks(files[..i])|] == LinksOf(Rows(files[i]))[0]
  {
    hide LinksOf, Rows, FileLinks;
    assert files[..i + 1] == files[..i] + [files[i]];
    assert files == files[..i + 1] + files[i + 1..];
    FileLinksConcat(files[..i], [files[i]]);
    FileLinksConcat(files[..i + 1], files[i + 1..]);
    OneFile(files[i]);
  }

  lemma LaterFile(files: seq<string>, i: nat, j: nat)
    requires i < j < |files| && LinksOf(Rows(files[i])) != []
    ensures |FileLinks(files[..i])| < |FileLinks(files[..j])|
  {
    hide LinksOf, Rows, FileLinks;
    FileAt(files[..j], i);
    assert files[..j][..i] == files[..i];
  }

  /** Two files in one order here and in the other order there, giving one chain: a record repeats. */
  lemma Swapped(c: Keyed, seed: Digest, fs: seq<string>, i: nat, j: nat, gs: seq<string>, i': nat, j': nat)
    requires i < j < |fs| && j' < i' < |gs| && gs[i'] == fs[i] && gs[j'] == fs[j]
    requires LinksOf(Rows(fs[i])) != [] && LinksOf(Rows(fs[j])) != []
    requires FileLinks(fs) == FileLinks(gs) && Chain(c, seed, FileLinks(fs))
    ensures HashBroken(c, seed, FileLinks(fs), FileLinks(fs))
  {
    hide LinksOf, Rows, FileLinks, Chain, HashBroken;
    FileAt(fs, i);
    FileAt(fs, j);
    FileAt(gs, i');
    FileAt(gs, j');
    LaterFile(fs, i, j);
    LaterFile(gs, j', i');
    var p, q := |FileLinks(fs[..i])|, |FileLinks(fs[..j])|;
    var p', q' := |FileLinks(gs[..i'])|, |FileLinks(gs[..j'])|;
    if p != p' {
      NoRepeats(c, seed, FileLinks(fs), if p < p' then p else p', if p < p' then p' else p);
    } else {
      NoRepeats(c, seed, FileLinks(fs), if q < q' then q else q', if q < q' then q' else q);
    }
  }

  lemma DirFiles(st: Log)
    requires Distinct(st.rotated)
    ensures forall f | f in CreationOrder(st) :: f in DirOrder(st.rotated, st.active)
    ensures forall f | f in DirOrder(st.rotated, st.active) :: f in CreationOrder(st)
    ensures DirOrder(st.rotated, st.active)
            == ByName(st.rotated, SortedKeys(KeySet(Names(st.rotated)))) + if st.active.Some? then [st.active.value] else []
  {
    hide Distinct, SortedKeys, DataOf;
    KeyFiles(st.rotated);
  }

  lemma NamePlace(rotated: seq<File>, i: nat) returns (p: nat)
    requires Distinct(rotated) && i < |rotated|
    ensures var ks := SortedKeys(KeySet(Names(rotated)));
            p < |ks| && ks[p] == rotated[i].name && ByName(rotated, ks)[p] == rotated[i].data
  {
    hide Distinct, DataOf;
    var ks := SortedKeys(KeySet(Names(rotated)));
    KeyFiles(rotated);
    assert Names(rotated)[i] in KeySet(ks);
    p :| 0 <= p < |ks| && ks[p] == rotated[i].name;
    DataOfFile(rotated, i);
  }

  lemma LinesLinks(c: Keyed, st: Log, i: nat)
    requires Settled(c, st) && i < |st.rotated| && HasLines(st.rotated[i].data)
    ensures LinksOf(Rows(st.rotated[i].data)) != []
  {
    hide R.Sound, R.Links, LinksOf, Rows, Split;
    ActiveFile(c, st);
    assert CreationOrder(st)[i] == st.rotated[i].data;
    TerminatedRows(c, c.genesis, st.rotated[i].data);
  }

  lemma VerifyDirSettled(c: Keyed, st: Log)
    requires Settled(c, st) && Distinct(st.rotated)
    ensures InOrder(st.rotated) ==> IntactFiles(c, c.genesis, DirOrder(st.rotated, st.active))
    ensures IntactFiles(c, c.genesis, DirOrder(st.rotated, st.active)) ==>
              InOrder(st.rotated)
              || HashBroken(c, c.genesis, FileLinks(CreationOrder(st)), FileLinks(DirOrder(st.rotated, st.active)))
  {
    hide Settled, Distinct, InOrder, IntactFiles, HashBroken, FileLinks, DirOrder, Chain, LinksOf, Rows, Terminated, SortedKeys;
    var dir, files := DirOrder(st.rotated, st.active), CreationOrder(st);
    SoundVerifies(c, st);
    FilesChain(c, c.genesis, files);
    ActiveFile(c, st);
    DirFiles(st);
    assert AllTerminated(dir);
    TerminatedFiles(c, c.genesis, dir);
    if InOrder(st.rotated) {
      OrderedLinks(st);
    } else if IntactFiles(c, c.genesis, dir) {
      LinksWithin(dir, files);
      LinksWithin(files, dir);
      OneOrder(c, c.genesis, FileLinks(files), FileLinks(dir));
      if FileLinks(files) == FileLinks(dir) {
        OutOfOrder(c, st);
      }
    }
  }

  /** Main result.  VerifyDir accepts a sound log with nothing unfinished exactly if no line is too long
      for it and the files that hold records were made in the order of their names -- unless the hash
      is broken on those very records. */
  lemma VerifyDirExact(c: Keyed, st: Log)
    requires R.Sound(c, st) && R.Unfinished(st) == "" && Distinct(st.rotated)
    ensures Short(R.AllLines(st)) && InOrder(st.rotated) ==> IntactFiles(c, c.genesis, DirOrder(st.rotated, st.active))
    ensures IntactFiles(c, c.genesis, DirOrder(st.rotated, st.active)) ==>
              Short(R.AllLines(st))
              && (InOrder(st.rotated)
                  || HashBroken(c, c.genesis, FileLinks(CreationOrder(st)), FileLinks(DirOrder(st.rotated, st.active))))
  {
    hide R.Sound, R.AllLines, Distinct, InOrder, IntactFiles, HashBroken, FileLinks, DirOrder, CreationOrder, Short, R.Unfinished;
    var dir := DirOrder(st.rotated, st.active);
    if IntactFiles(c, c.genesis, dir) {
      FilesShort(c, c.genesis, dir);
      DirFiles(st);
      LinesShort(c, st, dir);
    }
    if Short(R.AllLines(st)) { VerifyDirSettled(c, st); }
  }

  /** And so for every faithful run from an empty directory that leaves nothing unfinished. */
  lemma RunVerifiesExactly(c: Keyed, max: int, es: seq<T.Event>)
    requires T.FaithfulRun(c, max, T.Fresh(c), es)
    ensures var st := T.Run(c, max, T.Fresh(c), es);
            R.Unfinished(st) == "" ==>
              (Short(R.AllLines(st)) && InOrder(st.rotated) ==> IntactFiles(c, c.genesis, DirOrder(st.rotated, st.active)))
              && (IntactFiles(c, c.genesis, DirOrder(st.rotated, st.active)) ==>
                    Short(R.AllLines(st))
                    && (InOrder(st.rotated)
                        || HashBroken(c, c.genesis, FileLinks(CreationOrder(st)), FileLinks(DirOrder(st.rotated, st.active)))))
  {
    hide T.FaithfulRun, T.Run, R.Sound, R.AllLines, Distinct, InOrder, IntactFiles, HashBroken, FileLinks, DirOrder, CreationOrder,
      Short, R.Unfinished, T.Journal, T.Landed, R.ChainedOnDisk;
    var st := T.Run(c, max, T.Fresh(c), es);
    T.RunFromEmpty(c, max, es);
    if R.Unfinished(st) == "" { VerifyDirExact(c, st); }
  }

  lemma OrderedLinks(st: Log)
    requires Distinct(st.rotated) && InOrder(st.rotated) && AllTerminated(CreationOrder(st))
    ensures FileLinks(DirOrder(st.rotated, st.active)) == FileLinks(CreationOrder(st))
  {
    hide Distinct, InOrder, FileLinks, Terminated, SortedKeys, DirOrder;
    assert forall i | 0 <= i < |st.rotated| :: CreationOrder(st)[i] == Datas(st.rotated)[i];
    ReadsAsWritten(st.rotated);
    DirFiles(st);
    var last := if st.active.Some? then [st.active.value] else [];
    FileLinksConcat(Datas(st.rotated), last);
    FileLinksConcat(ByName(st.rotated, SortedKeys(KeySet(Names(st.rotated)))), last);
  }

  lemma OutOfOrder(c: Keyed, st: Log)
    requires Settled(c, st) && Distinct(st.rotated) && !InOrder(st.rotated)
    requires Chain(c, c.genesis, FileLinks(CreationOrder(st)))
    requires FileLinks(CreationOrder(st)) == FileLinks(DirOrder(st.rotated, st.active))
    ensures HashBroken(c, c.genesis, FileLinks(CreationOrder(st)), FileLinks(CreationOrder(st)))
  {
    hide Settled, FileLinks, DirOrder, Chain, LinksOf, Rows, SortedKeys, HasLines, DataOf, HashBroken, Leq;
    var i, j :| 0 <= i < j < |st.rotated| && HasLines(st.rotated[i].data) && HasLines(st.rotated[j].data)
                && !Leq(st.rotated[i].name, st.rotated[j].name);
    LinesLinks(c, st, i);
    LinesLinks(c, st, j);
    DirFiles(st);
    var p := NamePlace(st.rotated, i);
    var q := NamePlace(st.rotated, j);
    Swapped(c, c.genesis, CreationOrder(st), i, j, DirOrder(st.rotated, st.active), p, q);
  }

  // ----- How it happens -----

  /** The second file of a date sorts before the first. */
  lemma SuffixSortsFirst(rotated: seq<File>, date: string, millis: string)
    requires Exists(rotated, "audit-" + date + ".jsonl")
    ensures !Leq("audit-" + date + ".jsonl", RotatedName(rotated, date, millis))
  {
    var p := "audit-" + date;
    LeqAfter(p, ".jsonl", "-" + millis + ".jsonl");
    assert p + (".jsonl") == "audit-" + date + ".jsonl";
    assert p + ("-" + millis + ".jsonl") == "audit-" + date + "-" + millis + ".jsonl";
  }

  lemma {:induction false} LeqAfter(p: string, a: string, b: string)
    ensures Leq(p + a, p + b) <==> Leq(a, b)
    decreases |p|
  {
    if p == "" {
      assert p + a == a && p + b == b;
    } else {
      assert (p + a)[1..] == p[1..] + a && (p + b)[1..] == p[1..] + b;
      LeqAfter(p[1..], a, b);
    }
  }

  /** A second rotation on one date, both files holding records, puts the directory out of order for
      good: VerifyDir rejects a log nobody has touched. */
  lemma SecondRotationOfADay(c: Keyed, st: Log, env: Env, first: File)
    requires env.renameOk && st.active.Some?
    requires first in st.rotated && first.name == "audit-" + st.date + ".jsonl"
    requires HasLines(first.data) && HasLines(st.active.value)
    ensures !InOrder(RotateStep(c, st, env).0.rotated)
  {
    hide Leq, HasLines, RotateStep, R.AllLines, R.Without, R.RotatedLines;
    var name := RotatedName(st.rotated, st.date, env.millis);
    var others, f := R.Without(st.rotated, name), File(name, st.active.value);
    SuffixSortsFirst(st.rotated, st.date, env.millis);
    LeqSelf(first.name);
    R.RotatedAs(c, st, env);
    R.WithoutFiles(st.rotated, name);
    var k :| 0 <= k < |others| && others[k] == first;
    var after := RotateStep(c, st, env).0.rotated;
    assert after == others + [f];
    assert after[k] == first && after[|others|] == f;
  }

  lemma {:induction false} LeqSelf(k: string)
    ensures Leq(k, k)
    decreases |k|
  {
    if k != "" { LeqSelf(k[1..]); }
  }
}
