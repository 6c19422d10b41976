/** The writer against the verifier: which directories VerifyDir accepts, and what an accepted
    directory pins down. */
module AuditDirectory {
  import opened Json
  import opened GoStrings
  import opened Canonical
  import opened AuditChain
  import opened LogLines
  import opened AuditLog
  import opened AuditVerify
  import R = AuditRuns
  import RoundTrip
  import Decoded

  // ----- Rows of the logger's own files -----

  lemma RecordRow(line: string)
    requires R.IsRecord(line)
    ensures RowOf(DropCr(line)) == Stamped(R.LinkOf(line))
  {
    R.RecordReads(line);
    R.RecordTrimmed(line);
    hide ParseValue, StampOf, TrimSpace, DecodeFirst, Print;
    assert DropCr(line) == line;
  }

  lemma {:induction false} RecordRows(lines: seq<string>)
    requires R.Records(lines)
    ensures LinksOf(RowsOf(lines)) == R.Links(lines)
    ensures forall r | r in RowsOf(lines) :: r.Stamped?
    decreases |lines|
  {
    hide R.IsRecord, R.LinkOf, RowOf, DropCr;
    if lines != [] {
      var n := |lines| - 1;
      RecordRows(lines[..n]);
      RecordRow(lines[n]);
      assert lines == lines[..n] + [lines[n]];
      assert RowsOf(lines) == RowsOf(lines[..n]) + [RowOf(DropCr(lines[n]))];
      AuditVerify.LinksSnoc(RowsOf(lines[..n]), RowOf(DropCr(lines[n])));
      R.LinksSnoc(lines[..n], lines[n]);
    }
  }

  /** A file of whole records of readable length. */
  ghost predicate Terminated(data: string) {
    Tail(data) == "" && R.Records(Lines(data)) && Short(Lines(data))
  }

  lemma TerminatedRows(c: Keyed, seed: Digest, data: string)
    requires Terminated(data)
    ensures Short(Pieces(data)) && LinksOf(Rows(data)) == R.Links(Lines(data))
    ensures IntactRows(c, seed, Rows(data)) <==> Chain(c, seed, R.Links(Lines(data)))
  {
    hide Split, R.Records, R.Links, Chain, LinksOf, RowsOf;
    var rows := Rows(data);
    assert Pieces(data) == Lines(data);
    RecordRows(Lines(data));
    assert forall j | 0 <= j < |rows| :: rows[j] in rows;
  }

  ghost predicate AllTerminated(files: seq<string>) {
    forall f | f in files :: Terminated(f)
  }

  /** Whole files verify in an order exactly if their records form a chain in that order. */
  lemma {:induction false} TerminatedFiles(c: Keyed, seed: Digest, files: seq<string>)
    requires AllTerminated(files)
    ensures IntactFiles(c, seed, files) <==> Chain(c, seed, FileLinks(files))
    decreases |files|
  {
    hide Terminated, LinksOf, Rows, Short, IntactRows, Pieces;
    if files != [] {
      var here := LinksOf(Rows(files[0]));
      TerminatedRows(c, seed, files[0]);
      TerminatedFiles(c, End(seed, here), files[1..]);
      ChainConcat(c, seed, here, FileLinks(files[1..]));
    }
  }

  // ----- Creation order -----

  ghost function Datas(rotated: seq<File>): seq<string> {
    seq(|rotated|, i requires 0 <= i < |rotated| => rotated[i].data)
  }

  ghost function CreationOrder(st: Log): seq<string> {
    Datas(st.rotated) + if st.active.Some? then [st.active.value] else []
  }

  lemma {:induction false} FileLinksConcat(a: seq<string>, b: seq<string>)
    ensures FileLinks(a + b) == FileLinks(a) + FileLinks(b)
    decreases |a|
  {
    hide LinksOf, Rows;
    if a == [] {
      assert a + b == b;
    } else {
      assert (a + b)[0] == a[0] && (a + b)[1..] == a[1..] + b;
      FileLinksConcat(a[1..], b);
      assert LinksOf(Rows(a[0])) + (FileLinks(a[1..]) + FileLinks(b)) == LinksOf(Rows(a[0])) + FileLinks(a[1..]) + FileLinks(b);
    }
  }

  lemma {:induction false} RotatedFiles(c: Keyed, rotated: seq<File>)
    requires R.Records(R.RotatedLines(rotated)) && Short(R.RotatedLines(rotated))
    requires forall f | f in rotated :: Tail(f.data) == ""
    ensures AllTerminated(Datas(rotated)) && FileLinks(Datas(rotated)) == R.Links(R.RotatedLines(rotated))
    decreases |rotated|
  {
    hide R.IsRecord, Split, R.LinkOf, LinksOf, Rows, Pieces;
    if rotated != [] {
      var first, rest := Lines(rotated[0].data), R.RotatedLines(rotated[1..]);
      R.RecordsConcat(first, rest);
      assert rotated[0] in rotated && forall f | f in rotated[1..] :: f in rotated;
      assert forall l | l in rest :: l in first + rest;
      assert forall l | l in first :: l in first + rest;
      RotatedFiles(c, rotated[1..]);
      TerminatedRows(c, c.genesis, rotated[0].data);
      assert Datas(rotated) == [rotated[0].data] + Datas(rotated[1..]);
    } else {
      assert R.Links([]) == [];
    }
  }

  /** A log at rest: nothing unfinished, no line too long for the verifier. */
  ghost predicate Settled(c: Keyed, st: Log) {
    R.Sound(c, st) && R.Unfinished(st) == "" && Short(R.AllLines(st))
  }

  lemma ActiveFile(c: Keyed, st: Log)
    requires Settled(c, st)
    ensures AllTerminated(CreationOrder(st)) && FileLinks(CreationOrder(st)) == R.Links(R.AllLines(st))
  {
    hide R.IsRecord, Split, R.Links, LinksOf, Rows, Pieces, Chain;
    var data := Contents(st.active);
    var old', ls := R.RotatedLines(st.rotated), Lines(data);
    R.RecordsConcat(old', ls);
    assert forall l | l in old' :: l in R.AllLines(st);
    assert forall l | l in ls :: l in R.AllLines(st);
    RotatedFiles(c, st.rotated);
    if st.active.Some? {
      TerminatedRows(c, c.genesis, data);
      FileLinksConcat(Datas(st.rotated), [data]);
      OneFile(data);
    } else {
      SplitEmpty();
      assert R.AllLines(st) == old' && CreationOrder(st) == Datas(st.rotated);
    }
  }

  lemma OneFile(data: string)
    ensures FileLinks([data]) == LinksOf(Rows(data))
  {
    hide LinksOf, Rows;
    assert [data][1..] == [] && LinksOf(Rows(data)) + [] == LinksOf(Rows(data));
  }

  /** In the order they were written, the files of every sound log at rest verify, through to the
      digest the logger itself would continue from. */
  lemma SoundVerifies(c: Keyed, st: Log)
    requires Settled(c, st)
    ensures IntactFiles(c, c.genesis, CreationOrder(st))
    ensures End(c.genesis, FileLinks(CreationOrder(st))) == R.Head(c, st)
  {
    hide R.Records, R.Links, AllTerminated, FileLinks, Chain, IntactFiles;
    ActiveFile(c, st);
    TerminatedFiles(c, c.genesis, CreationOrder(st));
  }

  lemma {:induction false} FilesShort(c: Keyed, seed: Digest, files: seq<string>)
    requires IntactFiles(c, seed, files)
    ensures forall f | f in files :: Short(Lines(f))
    decreases |files|
  {
    hide Split, IntactRows, LinksOf, Rows;
    if files != [] {
      FilesShort(c, End(seed, LinksOf(Rows(files[0]))), files[1..]);
      var ps := Pieces(files[0]);
      assert forall l | l in Lines(files[0]) :: l in ps;
      assert files == [files[0]] + files[1..];
    }
  }

  lemma {:induction false} RotatedShort(rotated: seq<File>)
    requires forall f | f in Datas(rotated) :: Short(Lines(f))
    ensures Short(R.RotatedLines(rotated))
    decreases |rotated|
  {
    hide Split;
    if rotated != [] {
      assert Datas(rotated) == [rotated[0].data] + Datas(rotated[1..]);
      RotatedShort(rotated[1..]);
    }
  }

  /** And that is exact: in the order they were written the files of a sound log with nothing unfinished
      verify if and only if no line is too long for the verifier. */
  lemma SoundVerifiesExactly(c: Keyed, st: Log)
    requires R.Sound(c, st) && R.Unfinished(st) == ""
    ensures IntactFiles(c, c.genesis, CreationOrder(st)) <==> Short(R.AllLines(st))
  {
    hide R.Sound, R.Unfinished, IntactFiles;
    if Short(R.AllLines(st)) { SoundVerifies(c, st); }
    if IntactFiles(c, c.genesis, CreationOrder(st)) {
      FilesShort(c, c.genesis, CreationOrder(st));
      LinesShort(c, st, CreationOrder(st));
    }
  }

  lemma LinesShort(c: Keyed, st: Log, files: seq<string>)
    requires (forall f | f in files :: Short(Lines(f))) && forall f | f in CreationOrder(st) :: f in files
    ensures Short(R.AllLines(st))
  {
    hide Split, R.RotatedLines;
    var order := CreationOrder(st);
    R.EmptyFile(c);
    assert forall f | f in Datas(st.rotated) :: f in order;
    RotatedShort(st.rotated);
    if st.active.Some? { assert order[|st.rotated|] == st.active.value; }
  }

  // ----- A chain has one order -----

  lemma {:induction false} BrokenPrefix(c: Keyed, seed: Digest, a: seq<Link>, b: seq<Link>, i: nat, j: nat)
    requires i <= |a| && j <= |b| && HashBroken(c, seed, a[..i], b[..j])
    ensures HashBroken(c, seed, a, b)
  {
    InputPrefix(seed, a, i);
    InputPrefix(seed, b, j);
    if Collides(c, seed, a[..i], b[..j]) {
      var x, y :| 0 <= x < i && 0 <= y < j && Input(seed, a[..i], x) != Input(seed, b[..j], y)
                  && c.mac(c.key, Input(seed, a[..i], x)) == c.mac(c.key, Input(seed, b[..j], y));
      assert Input(seed, a, x) != Input(seed, b, y);
    } else if HitsSeed(c, seed, a[..i]) {
      var x :| 0 <= x < i && c.mac(c.key, Input(seed, a[..i], x)) == seed;
      assert c.mac(c.key, Input(seed, a, x)) == seed;
    } else {
      var y :| 0 <= y < j && c.mac(c.key, Input(seed, b[..j], y)) == seed;
      assert c.mac(c.key, Input(seed, b, y)) == seed;
    }
  }

  lemma InputPrefix(seed: Digest, a: seq<Link>, n: nat)
    requires n <= |a|
    ensures forall x | 0 <= x < n :: Input(seed, a[..n], x) == Input(seed, a, x)
  {
    forall x | 0 <= x < n ensures Input(seed, a[..n], x) == Input(seed, a, x) {
      assert a[..n][..x] == a[..x];
    }
  }

  lemma ChainAt(c: Keyed, seed: Digest, a: seq<Link>, k: nat)
    requires Chain(c, seed, a) && k < |a|
    ensures Chain(c, seed, a[..k]) && c.mac(c.key, Input(seed, a, k)) == a[k].stamp
  {
    assert a == a[..k] + a[k..];
    ChainConcat(c, seed, a[..k], a[k..]);
  }

  /** One record in two places of two chains: same place and same history, or the hash is broken. */
  lemma SamePlace(c: Keyed, seed: Digest, a: seq<Link>, i: nat, b: seq<Link>, j: nat)
    requires Chain(c, seed, a) && Chain(c, seed, b) && i < |a| && j < |b| && a[i] == b[j]
    ensures a[..i] == b[..j] || HashBroken(c, seed, a, b)
  {
    hide Chain, HashBroken;
    ChainAt(c, seed, a, i);
    ChainAt(c, seed, b, j);
    if Input(seed, a, i) != Input(seed, b, j) {
      assert Collides(c, seed, a, b);
      CollisionBreaks(c, seed, a, b);
    } else {
      PrefixInjective(End(seed, a[..i]), a[i].canonical, End(seed, b[..j]), b[j].canonical);
      SameEndSameChain(c, seed, a[..i], b[..j]);
      if a[..i] != b[..j] { BrokenPrefix(c, seed, a, b, i, j); }
    }
  }

  /** Chains of the same records are the same chain. */
  lemma OneOrder(c: Keyed, seed: Digest, a: seq<Link>, b: seq<Link>)
    requires Chain(c, seed, a) && Chain(c, seed, b)
    requires (forall k | k in a :: k in b) && (forall k | k in b :: k in a)
    ensures a == b || HashBroken(c, seed, a, b)
  {
    hide Chain, HashBroken;
    assert (a != [] ==> a[0] in b) && (b != [] ==> b[0] in a);
    if a != [] {
      var m, n := |a| - 1, |b| - 1;
      assert a[m] in b && b[n] in a;
      var j :| 0 <= j < |b| && b[j] == a[m];
      SamePlace(c, seed, a, m, b, j);
      var i :| 0 <= i < |a| && a[i] == b[n];
      SamePlace(c, seed, a, i, b, n);
      if a[..m] == b[..j] && a[..i] == b[..n] {
        assert |a[..m]| == m && |a[..i]| == i && |b[..j]| == j && |b[..n]| == n;
        assert a == a[..m] + [a[m]] && b == b[..n] + [b[n]];
      }
    }
  }

  /** No record occurs twice in a chain. */
  lemma NoRepeats(c: Keyed, seed: Digest, a: seq<Link>, i: nat, j: nat)
    requires Chain(c, seed, a) && i < j < |a| && a[i] == a[j]
    ensures HashBroken(c, seed, a, a)
  {
    hide Chain, HashBroken;
    SamePlace(c, seed, a, i, a, j);
    assert |a[..i]| == i && |a[..j]| == j;
  }

  // ----- What an accepted directory pins down -----

  lemma {:induction false} FilesChain(c: Keyed, seed: Digest, files: seq<string>)
    requires IntactFiles(c, seed, files)
    ensures Chain(c, seed, FileLinks(files))
    decreases |files|
  {
    hide LinksOf, Rows, Short, Pieces;
    if files != [] {
      var here := LinksOf(Rows(files[0]));
      FilesChain(c, End(seed, here), files[1..]);
      ChainConcat(c, seed, here, FileLinks(files[1..]));
    }
  }

  /** The records with a digest, as JSON objects without it. */
  ghost function Objects(pieces: seq<string>): seq<map<string, Value>> {
    if pieces == [] then []
    else
      var n := |pieces| - 1;
      var l := DropCr(pieces[n]);
      Objects(pieces[..n]) + if RowOf(l).Stamped? && DecodeMap(l).Some? then [DecodeMap(l).value - {HMAC}] else []
  }

  ghost function FileObjects(files: seq<string>): seq<map<string, Value>> {
    if files == [] then [] else Objects(Pieces(files[0])) + FileObjects(files[1..])
  }

  /** links are the records objs in canonical form. */
  ghost predicate Printed(links: seq<Link>, objs: seq<map<string, Value>>) {
    |links| == |objs|
    && forall i | 0 <= i < |links| :: Clean(Obj(objs[i])) && links[i].canonical == Print(GoMarshal, Obj(objs[i]))
  }

  lemma RowObject(l: string)
    ensures RowOf(l).Stamped? ==> DecodeMap(l).Some? && Clean(Obj(DecodeMap(l).value - {HMAC}))
                                  && RowOf(l).link.canonical == Print(GoMarshal, Obj(DecodeMap(l).value - {HMAC}))
  {
    hide TrimSpace, DecodeFirst, StampOf, Print, Clean;
    if DecodeMap(l).Some? {
      MapClean(l);
      Decoded.CleanRemove(DecodeMap(l).value, {HMAC});
    }
  }

  lemma {:induction false} ObjectsPrinted(pieces: seq<string>)
    ensures Printed(LinksOf(RowsOf(pieces)), Objects(pieces))
    decreases |pieces|
  {
    hide RowOf, DropCr, Clean, Print, DecodeMap;
    if pieces != [] {
      var n := |pieces| - 1;
      ObjectsPrinted(pieces[..n]);
      RowObject(DropCr(pieces[n]));
      assert pieces == pieces[..n] + [pieces[n]];
      assert RowsOf(pieces) == RowsOf(pieces[..n]) + [RowOf(DropCr(pieces[n]))];
      AuditVerify.LinksSnoc(RowsOf(pieces[..n]), RowOf(DropCr(pieces[n])));
    }
  }

  lemma {:induction false} FileObjectsPrinted(files: seq<string>)
    ensures Printed(FileLinks(files), FileObjects(files))
    decreases |files|
  {
    hide Clean, Print, Objects, LinksOf, RowsOf, Pieces;
    if files != [] {
      ObjectsPrinted(Pieces(files[0]));
      FileObjectsPrinted(files[1..]);
    }
  }

  lemma SamePrinted(links: seq<Link>, objs: seq<map<string, Value>>, objs': seq<map<string, Value>>)
    requires Printed(links, objs) && Printed(links, objs')
    ensures objs == objs'
  {
    hide Clean, Print;
    forall i | 0 <= i < |objs| ensures objs[i] == objs'[i] {
      RoundTrip.PrintInjective(GoMarshal, Obj(objs[i]), Obj(objs'[i]));
    }
  }

  /** Main result.  Two directories of any contents that both verify and end in the same digest hold
      the same records -- as JSON objects, however they are spelled -- or the hash is broken. */
  lemma FinalPinsRecords(c: Keyed, files: seq<string>, files': seq<string>)
    requires IntactFiles(c, c.genesis, files) && IntactFiles(c, c.genesis, files')
    requires End(c.genesis, FileLinks(files)) == End(c.genesis, FileLinks(files'))
    ensures FileObjects(files) == FileObjects(files') || HashBroken(c, c.genesis, FileLinks(files), FileLinks(files'))
  {
    hide IntactFiles, FileLinks, FileObjects, HashBroken, Chain, Printed;
    FilesChain(c, c.genesis, files);
    FilesChain(c, c.genesis, files');
    SameEndSameChain(c, c.genesis, FileLinks(files), FileLinks(files'));
    FileObjectsPrinted(files);
    FileObjectsPrinted(files');
    if FileLinks(files) == FileLinks(files') {
      SamePrinted(FileLinks(files), FileObjects(files), FileObjects(files'));
    }
  }
}
