/** pkg/audit/verify.go: checking one file, and all files of a directory. */
module AuditVerify {
  import opened Json
  import opened GoStrings
  import opened Canonical
  import opened Encoder
  import opened AuditChain
  import opened LogLines
  import opened AuditLog

  // ----- Rows -----

  /** What the verifier makes of one line. */
  datatype Row = Blank | Malformed | Bare | BadStamp | Stamped(link: Link)

  predicate HasHmac(m: map<string, Value>) {
    HMAC in m && m[HMAC].Str?
  }

  ghost function RowOf(raw: string): Row {
    if TrimSpace(raw) == "" then Blank
    else match DecodeMap(raw)
      case None => Malformed
      case Some(m) =>
        if !HasHmac(m) then Bare
        else if StampOf(m) == None then BadStamp
        else Stamped(Link(StampOf(m).value, Print(GoMarshal, Obj(m - {HMAC}))))
  }

  /** bufio.ScanLines drops one carriage return. */
  function DropCr(l: string): string {
    if l != "" && l[|l| - 1] == '\r' then l[..|l| - 1] else l
  }

  /** The tokens of bufio.ScanLines, before the carriage return goes. */
  function Pieces(data: string): seq<string> {
    Lines(data) + if Tail(data) == "" then [] else [Tail(data)]
  }

  ghost function RowsOf(pieces: seq<string>): seq<Row> {
    seq(|pieces|, i requires 0 <= i < |pieces| => RowOf(DropCr(pieces[i])))
  }

  ghost function Rows(data: string): seq<Row> { RowsOf(Pieces(data)) }

  ghost function LinksOf(rows: seq<Row>): seq<Link> {
    if rows == [] then []
    else LinksOf(rows[..|rows| - 1]) + if rows[|rows| - 1].Stamped? then [rows[|rows| - 1].link] else []
  }

  ghost function BareCount(rows: seq<Row>): nat {
    if rows == [] then 0 else BareCount(rows[..|rows| - 1]) + if rows[|rows| - 1].Bare? then 1 else 0
  }

  /** The number of the last row with a digest, counting from one. */
  ghost function LastStamped(rows: seq<Row>): nat {
    if rows == [] then 0 else if rows[|rows| - 1].Stamped? then |rows| else LastStamped(rows[..|rows| - 1])
  }

  /** An intact file: only readable rows, those without a digest before all others, and the others a
      chain from the seed. */
  ghost predicate IntactRows(c: Keyed, seed: Digest, rows: seq<Row>) {
    && (forall r | r in rows :: !r.Malformed? && !r.BadStamp?)
    && (forall i, j | 0 <= i < j < |rows| && rows[i].Stamped? :: !rows[j].Bare?)
    && Chain(c, seed, LinksOf(rows))
  }

  // ----- One more row -----

  /** May r come next, when prev is the last digest and saw tells whether there was one? */
  ghost predicate Follows(c: Keyed, prev: Digest, saw: bool, r: Row) {
    match r
    case Blank => true
    case Bare => !saw
    case Stamped(link) => link.stamp == ComputeEntryHmac(c, prev, link.canonical)
    case _ => false
  }

  lemma {:induction false} NoLinks(rows: seq<Row>)
    ensures LinksOf(rows) == [] <==> forall r | r in rows :: !r.Stamped?
    decreases |rows|
  {
    if rows != [] {
      NoLinks(rows[..|rows| - 1]);
      assert rows == rows[..|rows| - 1] + [rows[|rows| - 1]];
    }
  }

  lemma LinksSnoc(rows: seq<Row>, r: Row)
    ensures LinksOf(rows + [r]) == LinksOf(rows) + if r.Stamped? then [r.link] else []
    ensures BareCount(rows + [r]) == BareCount(rows) + if r.Bare? then 1 else 0
    ensures LastStamped(rows + [r]) == if r.Stamped? then |rows| + 1 else LastStamped(rows)
  {
    assert (rows + [r])[..|rows|] == rows;
  }

  lemma IntactSnoc(c: Keyed, seed: Digest, rows: seq<Row>, r: Row)
    ensures IntactRows(c, seed, rows + [r])
            <==> IntactRows(c, seed, rows) && Follows(c, End(seed, LinksOf(rows)), LinksOf(rows) != [], r)
  {
    hide LinksOf, Chain;
    LinksSnoc(rows, r);
    NoLinks(rows);
    var more := rows + [r];
    assert forall i | 0 <= i < |rows| :: more[i] == rows[i];
    assert forall x | x in more :: x in rows || x == r;
    assert more[|rows|] == r && forall x | x in rows :: x in more;
    if r.Stamped? {
      ChainConcat(c, seed, LinksOf(rows), [r.link]);
      ChainOne(c, End(seed, LinksOf(rows)), r.link);
    } else {
      assert LinksOf(rows) + [] == LinksOf(rows);
    }
  }

  lemma ChainOne(c: Keyed, prev: Digest, k: Link)
    ensures Chain(c, prev, [k]) <==> k.stamp == ComputeEntryHmac(c, prev, k.canonical)
  {
    assert [k][1..] == [];
  }

  lemma {:induction false} IntactPrefix(c: Keyed, seed: Digest, rows: seq<Row>, n: nat)
    requires n <= |rows| && IntactRows(c, seed, rows)
    ensures IntactRows(c, seed, rows[..n])
    decreases |rows|
  {
    hide IntactRows, Follows;
    if n < |rows| {
      assert rows == rows[..|rows| - 1] + [rows[|rows| - 1]];
      IntactSnoc(c, seed, rows[..|rows| - 1], rows[|rows| - 1]);
      IntactPrefix(c, seed, rows[..|rows| - 1], n);
      assert rows[..|rows| - 1][..n] == rows[..n];
    } else {
      assert rows[..n] == rows;
    }
  }

  // ----- Tokens -----

  lemma {:induction false} SplitFront(l: string, rest: string)
    requires OneLine(l)
    ensures Split(l + "\n" + rest) == ([l] + Lines(rest), Tail(rest))
    decreases |l|
  {
    var s := l + "\n" + rest;
    if l == "" {
      assert s[0] == '\n' && s[1..] == rest;
    } else {
      assert l[0] in l && forall c | c in l[1..] :: c in l;
      SplitFront(l[1..], rest);
      assert s[0] == l[0] && s[1..] == l[1..] + "\n" + rest;
      ConsFront(l[0], l[1..], Lines(rest), Tail(rest));
      assert [l[0]] + l[1..] == l;
    }
  }

  lemma ConsFront(ch: char, l: string, ls: seq<string>, t: string)
    ensures ch != '\n' ==> Cons(ch, ([l] + ls, t)) == ([[ch] + l] + ls, t)
  {
    assert ([l] + ls)[0 := [ch] + l] == [[ch] + l] + ls;
  }

  lemma PieceFront(data: string, pos: nat, end: nat)
    requires pos <= end <= |data| && pos < |data| && OneLine(data[pos..end])
    requires end < |data| ==> data[end] == '\n'
    ensures Pieces(data[pos..]) == [data[pos..end]] + Pieces(data[if end < |data| then end + 1 else end..])
  {
    hide Split;
    var l := data[pos..end];
    if end < |data| {
      assert data[pos..] == l + "\n" + data[end + 1..];
      SplitFront(l, data[end + 1..]);
      assert Pieces(data[pos..]) == [l] + Pieces(data[end + 1..]);
    } else {
      assert data[pos..] == l && data[end..] == "";
      SplitOneLine(l);
      SplitEmpty();
      assert [] + [l] == [l] + [];
    }
  }

  method IndexNewline(data: string, pos: nat) returns (end: nat)
    requires pos <= |data|
    ensures pos <= end <= |data| && OneLine(data[pos..end]) && (end < |data| ==> data[end] == '\n')
  {
    end := pos;
    while end < |data| && data[end] != '\n'
      invariant pos <= end <= |data| && OneLine(data[pos..end])
    {
      assert data[pos..end + 1] == data[pos..end] + [data[end]];
      end := end + 1;
    }
  }

  // ----- VerifyFile -----

  /** The scanner's buffer: a longer token is an error. */
  const LIMIT := 0x10_0000

  datatype Reason = MalformedJson | MissingHmac | NotHex | Mismatch

  /** EntriesScanned and PreChainEntries of an intact file, and the digest the next file continues. */
  datatype Verdict =
    | Unreadable
    | Broken(at: nat, reason: Reason, preChain: nat)
    | Intact(scanned: nat, preChain: nat, final: Digest)

  ghost predicate Short(pieces: seq<string>) {
    forall p | p in pieces :: |p| < LIMIT
  }

  ghost function ReasonOf(r: Row): Reason {
    match r
    case Malformed => MalformedJson
    case Bare => MissingHmac
    case BadStamp => NotHex
    case _ => Mismatch
  }

  /** What a verdict about these pieces means. */
  ghost predicate Judges(c: Keyed, seed: Digest, pieces: seq<string>, v: Verdict) {
    var rows := RowsOf(pieces);
    match v
    case Intact(scanned, preChain, final) =>
      Short(pieces) && IntactRows(c, seed, rows)
      && scanned == LastStamped(rows) && preChain == BareCount(rows) && final == End(seed, LinksOf(rows))
    case Broken(at, reason, preChain) =>
      1 <= at <= |pieces| && Short(pieces[..at]) && IntactRows(c, seed, rows[..at - 1]) && !IntactRows(c, seed, rows[..at])
      && reason == ReasonOf(rows[at - 1]) && preChain == BareCount(rows[..at - 1])
    case Unreadable =>
      exists k :: 0 <= k < |pieces| && |pieces[k]| >= LIMIT && Short(pieces[..k]) && IntactRows(c, seed, rows[..k])
  }

  /** The loop state: the first pieces are judged intact, with the loop's variables as the verdict. */
  ghost predicate Reached(c: Keyed, seed: Digest, data: string, pos: nat, n: nat,
                          scanned: nat, preChain: nat, prev: Digest, saw: bool)
  {
    && n <= |Pieces(data)| && pos <= |data| && Pieces(data)[n..] == Pieces(data[pos..])
    && Judges(c, seed, Pieces(data)[..n], Intact(scanned, preChain, prev))
    && (saw <==> LinksOf(RowsOf(Pieces(data)[..n])) != [])
  }

  method VerifyFile(c: Keyed, data: string, seed: Digest) returns (v: Verdict)
    ensures Judges(c, seed, Pieces(data), v)
  {
    hide Judges, Reached, Follows, ReasonOf, RowOf;
    var pos, lineNo := 0, 0;
    var scanned, preChain, prev, saw := 0, 0, seed, false;
    ReachedStart(c, seed, data);
    while pos < |data|
      invariant Reached(c, seed, data, pos, lineNo, scanned, preChain, prev, saw)
      invariant pos <= |data|
      decreases |data| - pos
    {
      var end := IndexNewline(data, pos);
      ReachedPiece(c, seed, data, pos, end, lineNo, scanned, preChain, prev, saw);
      if end - pos >= LIMIT {
        return Unreadable;
      }
      var raw := DropCr(data[pos..end]);
      var kind, mac := Classify(c, raw, prev, saw);
      if kind.Reject? {
        return Broken(lineNo + 1, kind.reason, preChain);
      }
      ReachedNext(c, seed, data, pos, end, lineNo, scanned, preChain, prev, saw, mac);
      lineNo := lineNo + 1;
      match kind {
        case Skip =>
        case CountBare => preChain := preChain + 1;
        case Advance => saw, prev, scanned := true, mac, lineNo;
        case Reject(_) =>
      }
      pos := if end < |data| then end + 1 else end;
    }
    ReachedEnd(c, seed, data, pos, lineNo, scanned, preChain, prev, saw);
    v := Intact(scanned, preChain, prev);
  }

  datatype Action = Skip | CountBare | Advance | Reject(reason: Reason)

  ghost function ActionOf(c: Keyed, prev: Digest, saw: bool, r: Row): Action {
    if !Follows(c, prev, saw, r) then Reject(ReasonOf(r))
    else match r
      case Bare => CountBare
      case Stamped(_) => Advance
      case _ => Skip
  }

  /** The body of the loop: one row. */
  method Classify(c: Keyed, raw: string, prev: Digest, saw: bool) returns (a: Action, mac: Digest)
    ensures a == ActionOf(c, prev, saw, RowOf(raw))
    ensures a.Advance? ==> mac == RowOf(raw).link.stamp
  {
    hide TrimSpace, DecodeFirst, Print, HexDecode;
    mac := prev;
    if TrimSpace(raw) == "" {
      return Skip, mac;
    }
    var m := DecodeMap(raw);
    if m.None? {
      return Reject(MalformedJson), mac;
    }
    if !HasHmac(m.value) {
      return if saw then Reject(MissingHmac) else CountBare, mac;
    }
    var expected := StampOf(m.value);
    if expected.None? {
      return Reject(NotHex), mac;
    }
    var canonical := CanonicalMarshal(Obj(m.value - {HMAC}));
    mac := ComputeEntryHmac(c, prev, canonical);
    a := if mac == expected.value then Advance else Reject(Mismatch);
  }

  lemma ReachedStart(c: Keyed, seed: Digest, data: string)
    ensures Reached(c, seed, data, 0, 0, 0, 0, seed, false)
  {
    hide Split;
    assert data[0..] == data && Pieces(data)[0..] == Pieces(data) && Pieces(data)[..0] == [];
    assert RowsOf([]) == [];
  }

  /** The next piece, and what the loop may answer there. */
  lemma ReachedPiece(c: Keyed, seed: Digest, data: string, pos: nat, end: nat, n: nat,
                     scanned: nat, preChain: nat, prev: Digest, saw: bool)
    requires Reached(c, seed, data, pos, n, scanned, preChain, prev, saw) && pos < |data|
    requires pos <= end <= |data| && OneLine(data[pos..end]) && (end < |data| ==> data[end] == '\n')
    ensures n < |Pieces(data)| && Pieces(data)[n] == data[pos..end]
    ensures end - pos >= LIMIT ==> Judges(c, seed, Pieces(data), Unreadable)
    ensures end - pos < LIMIT ==>
              var a := ActionOf(c, prev, saw, RowOf(DropCr(data[pos..end])));
              a.Reject? ==> Judges(c, seed, Pieces(data), Broken(n + 1, a.reason, preChain))
  {
    hide Split, Judges, Pieces, ActionOf, RowOf, LinksOf, RowsOf;
    PieceFront(data, pos, end);
    var ps := Pieces(data);
    assert ps[n] == ps[n..][0];
    JudgeStop(c, seed, ps, n, scanned, preChain, prev, saw);
  }

  lemma JudgeStop(c: Keyed, seed: Digest, ps: seq<string>, n: nat, scanned: nat, preChain: nat, prev: Digest, saw: bool)
    requires n < |ps| && Judges(c, seed, ps[..n], Intact(scanned, preChain, prev))
    requires saw <==> LinksOf(RowsOf(ps[..n])) != []
    ensures |ps[n]| >= LIMIT ==> Judges(c, seed, ps, Unreadable)
    ensures |ps[n]| < LIMIT ==>
              var a := ActionOf(c, prev, saw, RowOf(DropCr(ps[n])));
              a.Reject? ==> Judges(c, seed, ps, Broken(n + 1, a.reason, preChain))
  {
    hide Follows, RowOf, IntactRows, ReasonOf, LinksOf, BareCount, LastStamped, RowsOf, Short, DropCr;
    RowsFront(ps, n);
    RowsNext(ps, n);
    var r := RowOf(DropCr(ps[n]));
    IntactSnoc(c, seed, RowsOf(ps)[..n], r);
    ShortNext(ps, n);
  }

  lemma RowsNext(ps: seq<string>, n: nat)
    requires n < |ps|
    ensures |RowsOf(ps)| == |ps| && RowsOf(ps)[n] == RowOf(DropCr(ps[n]))
    ensures RowsOf(ps)[..n + 1] == RowsOf(ps)[..n] + [RowOf(DropCr(ps[n]))]
  {
    hide RowOf, DropCr;
  }

  lemma ShortNext(ps: seq<string>, n: nat)
    requires n < |ps|
    ensures Short(ps[..n + 1]) <==> Short(ps[..n]) && |ps[n]| < LIMIT
  {
    assert ps[..n + 1] == ps[..n] + [ps[n]];
  }

  lemma RowsFront(pieces: seq<string>, n: nat)
    requires n <= |pieces|
    ensures RowsOf(pieces[..n]) == RowsOf(pieces)[..n]
  {
  }

  lemma ReachedNext(c: Keyed, seed: Digest, data: string, pos: nat, end: nat, n: nat,
                    scanned: nat, preChain: nat, prev: Digest, saw: bool, mac: Digest)
    requires Reached(c, seed, data, pos, n, scanned, preChain, prev, saw) && pos < |data|
    requires pos <= end <= |data| && OneLine(data[pos..end]) && (end < |data| ==> data[end] == '\n')
    requires end - pos < LIMIT && !ActionOf(c, prev, saw, RowOf(DropCr(data[pos..end]))).Reject?
    ensures var a := ActionOf(c, prev, saw, RowOf(DropCr(data[pos..end])));
            var next := if end < |data| then end + 1 else end;
            (a.Skip? ==> Reached(c, seed, data, next, n + 1, scanned, preChain, prev, saw))
            && (a.CountBare? ==> Reached(c, seed, data, next, n + 1, scanned, preChain + 1, prev, saw))
            && (a.Advance? && RowOf(DropCr(data[pos..end])).link.stamp == mac
                ==> Reached(c, seed, data, next, n + 1, n + 1, preChain, mac, true))
  {
    hide Split, Follows, RowOf, IntactRows, ReasonOf, LinksOf, BareCount, LastStamped;
    ReachedPiece(c, seed, data, pos, end, n, scanned, preChain, prev, saw);
    PieceFront(data, pos, end);
    var ps := Pieces(data);
    var r := RowOf(DropCr(ps[n]));
    var rows := RowsOf(ps[..n]);
    assert ps[..n + 1] == ps[..n] + [ps[n]] && ps[n + 1..] == ps[n..][1..];
    assert RowsOf(ps[..n + 1]) == rows + [r];
    IntactSnoc(c, seed, rows, r);
    LinksSnoc(rows, r);
    assert LinksOf(rows) + [] == LinksOf(rows);
  }

  lemma ReachedEnd(c: Keyed, seed: Digest, data: string, pos: nat, n: nat,
                   scanned: nat, preChain: nat, prev: Digest, saw: bool)
    requires Reached(c, seed, data, pos, n, scanned, preChain, prev, saw) && pos >= |data|
    ensures Judges(c, seed, Pieces(data), Intact(scanned, preChain, prev))
  {
    hide Judges;
    SplitEmpty();
    assert data[pos..] == "";
    assert Pieces(data)[..n] == Pieces(data);
  }

  /** A verdict is Intact exactly for an intact, readable file. */
  lemma IntactExactly(c: Keyed, seed: Digest, pieces: seq<string>, v: Verdict)
    requires Judges(c, seed, pieces, v)
    ensures v.Intact? <==> Short(pieces) && IntactRows(c, seed, RowsOf(pieces))
  {
    hide IntactRows, RowOf;
    match v {
      case Intact(_, _, _) =>
      case Broken(at, _, _) =>
        if IntactRows(c, seed, RowsOf(pieces)) { IntactPrefix(c, seed, RowsOf(pieces), at); }
      case Unreadable =>
    }
  }

  /** A record without a digest behind one that has a digest is never accepted: dropping the stamp of a record
      does not hide a change. */
  lemma UnsignedBehindSigned(c: Keyed, seed: Digest, pieces: seq<string>, v: Verdict, i: nat, j: nat)
    requires Judges(c, seed, pieces, v) && i < j < |pieces|
    requires DecodeMap(DropCr(pieces[i])).Some? && StampOf(DecodeMap(DropCr(pieces[i])).value).Some?
    requires TrimSpace(DropCr(pieces[i])) != "" && TrimSpace(DropCr(pieces[j])) != ""
    requires DecodeMap(DropCr(pieces[j])).Some?
             && !(HMAC in DecodeMap(DropCr(pieces[j])).value && DecodeMap(DropCr(pieces[j])).value[HMAC].Str?)
    ensures !v.Intact?
  {
    hide TrimSpace, DecodeFirst, Print, Chain, LinksOf, BareCount, LastStamped, HexDecode, Short;
    var rows := RowsOf(pieces);
    assert rows[i].Stamped? && rows[j].Bare?;
    IntactExactly(c, seed, pieces, v);
  }

  /** Why a file is broken at a row: it is no JSON object; it has no digest though an earlier row has one;
      its digest is not 32 bytes in hex; or its digest is not the HMAC of the one before and its own text. */
  lemma BrokenWhy(c: Keyed, seed: Digest, pieces: seq<string>, v: Verdict)
    requires Judges(c, seed, pieces, v) && v.Broken?
    ensures var raw, rows := DropCr(pieces[v.at - 1]), RowsOf(pieces[..v.at - 1]);
            TrimSpace(raw) != ""
            && match v.reason
               case MalformedJson => DecodeMap(raw) == None
               case MissingHmac =>
                 DecodeMap(raw).Some? && !("hmac" in DecodeMap(raw).value && DecodeMap(raw).value["hmac"].Str?)
                 && exists r :: r in rows && r.Stamped?
               case NotHex =>
                 DecodeMap(raw).Some? && "hmac" in DecodeMap(raw).value && DecodeMap(raw).value["hmac"].Str?
                 && (HexDecode(DecodeMap(raw).value["hmac"].s) == None
                     || !IsDigest(HexDecode(DecodeMap(raw).value["hmac"].s).value))
               case Mismatch =>
                 DecodeMap(raw).Some? && "hmac" in DecodeMap(raw).value && DecodeMap(raw).value["hmac"].Str?
                 && HexDecode(DecodeMap(raw).value["hmac"].s).Some?
                 && HexDecode(DecodeMap(raw).value["hmac"].s).value
                    != c.mac(c.key, End(seed, LinksOf(rows)) + Print(GoMarshal, Obj(DecodeMap(raw).value - {"hmac"})))
  {
    hide TrimSpace, DecodeFirst, Print, Chain, LinksOf, BareCount, HexDecode, Short, IntactRows;
    var n := v.at - 1;
    var rows := RowsOf(pieces[..n]);
    assert RowsOf(pieces)[..n] == rows && RowsOf(pieces)[..v.at] == rows + [RowOf(DropCr(pieces[n]))];
    IntactSnoc(c, seed, rows, RowOf(DropCr(pieces[n])));
    NoLinks(rows);
  }

  /** What the numbers of an intact file are: the line of its last digest, how many rows come before the
      chain, and that last digest itself. */
  lemma IntactNumbers(c: Keyed, seed: Digest, pieces: seq<string>, v: Verdict)
    requires Judges(c, seed, pieces, v) && v.Intact?
    ensures var rows := RowsOf(pieces);
            v.scanned <= |rows| && (forall k | v.scanned <= k < |rows| :: !rows[k].Stamped?)
            && (v.scanned > 0 ==> rows[v.scanned - 1].Stamped? && v.final == rows[v.scanned - 1].link.stamp)
            && (v.scanned == 0 ==> v.final == seed)
            && v.preChain == |set k | 0 <= k < |rows| && rows[k].Bare?|
  {
    hide RowOf, Chain, LinksOf, LastStamped, BareCount;
    LastStampedIs(RowsOf(pieces), seed);
    BareCountIs(RowsOf(pieces));
  }

  lemma {:induction false} LastStampedIs(rows: seq<Row>, seed: Digest)
    ensures var n := LastStamped(rows);
            n <= |rows| && (forall k | n <= k < |rows| :: !rows[k].Stamped?)
            && End(seed, LinksOf(rows)) == (if n > 0 && rows[n - 1].Stamped? then rows[n - 1].link.stamp else seed)
            && (n > 0 ==> rows[n - 1].Stamped?)
    decreases |rows|
  {
    if rows != [] {
      var front := rows[..|rows| - 1];
      LastStampedIs(front, seed);
      assert rows == front + [rows[|rows| - 1]];
    }
  }

  lemma {:induction false} BareCountIs(rows: seq<Row>)
    ensures BareCount(rows) == |set k | 0 <= k < |rows| && rows[k].Bare?|
    decreases |rows|
  {
    var all := set k | 0 <= k < |rows| && rows[k].Bare?;
    if rows == [] {
      assert all == {};
    } else {
      var n := |rows| - 1;
      var front := rows[..n];
      BareCountIs(front);
      assert all == (set k | 0 <= k < |front| && front[k].Bare?) + (if rows[n].Bare? then {n} else {});
    }
  }

  // ----- VerifyDir -----

  /** The files, in this order, are intact and continue each other. */
  ghost predicate IntactFiles(c: Keyed, seed: Digest, files: seq<string>)
    decreases |files|
  {
    files == [] ||
    (Short(Pieces(files[0])) && IntactRows(c, seed, Rows(files[0]))
     && IntactFiles(c, End(seed, LinksOf(Rows(files[0]))), files[1..]))
  }

  /** All records with a digest, in file order. */
  ghost function FileLinks(files: seq<string>): seq<Link> {
    if files == [] then [] else LinksOf(Rows(files[0])) + FileLinks(files[1..])
  }

  function Names(rotated: seq<File>): seq<string> {
    seq(|rotated|, i requires 0 <= i < |rotated| => rotated[i].name)
  }

  function DataOf(rotated: seq<File>, name: string): string {
    if rotated == [] then "" else if rotated[0].name == name then rotated[0].data else DataOf(rotated[1..], name)
  }

  /** The contents of the files in the order VerifyDir reads them. */
  ghost function DirOrder(rotated: seq<File>, active: Option<string>): seq<string> {
    var ks := SortedKeys(KeySet(Names(rotated)));
    seq(|ks|, i requires 0 <= i < |ks| => DataOf(rotated, ks[i])) + if active.Some? then [active.value] else []
  }

  lemma {:induction false} IntactFilesSnoc(c: Keyed, seed: Digest, files: seq<string>, f: string)
    ensures IntactFiles(c, seed, files + [f])
            <==> IntactFiles(c, seed, files)
                 && Short(Pieces(f)) && IntactRows(c, End(seed, FileLinks(files)), Rows(f))
    ensures FileLinks(files + [f]) == FileLinks(files) + LinksOf(Rows(f))
    decreases |files|
  {
    hide IntactRows, LinksOf, Rows, Short, Pieces;
    if files == [] {
      assert files + [f] == [f] && [f][1..] == [];
      assert LinksOf(Rows(f)) + [] == LinksOf(Rows(f));
    } else {
      var here := LinksOf(Rows(files[0]));
      assert (files + [f])[0] == files[0] && (files + [f])[1..] == files[1..] + [f];
      IntactFilesSnoc(c, End(seed, here), files[1..], f);
      assert here + (FileLinks(files[1..]) + LinksOf(Rows(f))) == here + FileLinks(files[1..]) + LinksOf(Rows(f));
    }
  }

  lemma {:induction false} IntactFilesPrefix(c: Keyed, seed: Digest, files: seq<string>, n: nat)
    requires n <= |files| && IntactFiles(c, seed, files)
    ensures IntactFiles(c, seed, files[..n])
    decreases |files|
  {
    hide IntactRows, LinksOf, Rows, Short, Pieces, IntactFiles;
    if n < |files| {
      var k := |files| - 1;
      assert files == files[..k] + [files[k]];
      IntactFilesSnoc(c, seed, files[..k], files[k]);
      IntactFilesPrefix(c, seed, files[..k], n);
      assert files[..k][..n] == files[..n];
    } else {
      assert files[..n] == files;
    }
  }

  /** EntriesScanned and PreChainEntries of files that are all intact. */
  ghost function Entries(files: seq<string>): nat {
    if files == [] then 0 else Entries(files[..|files| - 1]) + LastStamped(Rows(files[|files| - 1]))
  }

  ghost function PreChain(files: seq<string>): nat {
    if files == [] then 0 else PreChain(files[..|files| - 1]) + BareCount(Rows(files[|files| - 1]))
  }

  datatype DirVerdict =
    | Verified(entries: nat, preChain: nat, final: Digest)
    | Failed(file: nat, v: Verdict, entries: nat, preChain: nat)

  /** VerifyDir: the rotated files by name, then audit.jsonl. */
  method VerifyDir(c: Keyed, rotated: seq<File>, active: Option<string>) returns (v: DirVerdict)
    requires Distinct(rotated)
    ensures v.Verified? <==> IntactFiles(c, c.genesis, DirOrder(rotated, active))
    ensures v.Verified? ==> v.final == End(c.genesis, FileLinks(DirOrder(rotated, active)))
                            && v.entries == Entries(DirOrder(rotated, active)) && v.preChain == PreChain(DirOrder(rotated, active))
    ensures v.Failed? ==> v.file < |DirOrder(rotated, active)|
                          && IntactFiles(c, c.genesis, DirOrder(rotated, active)[..v.file])
                          && !IntactFiles(c, c.genesis, DirOrder(rotated, active)[..v.file + 1])
                          && Judges(c, End(c.genesis, FileLinks(DirOrder(rotated, active)[..v.file])),
                                    Pieces(DirOrder(rotated, active)[v.file]), v.v)
    ensures v.Failed? && v.v.Broken? ==> v.entries == Entries(DirOrder(rotated, active)[..v.file]) + v.v.at
                                         && v.preChain == PreChain(DirOrder(rotated, active)[..v.file]) + v.v.preChain
  {
    hide IntactRows, LinksOf, Rows, Short, Pieces, IntactFiles, FileLinks, Judges, DataOf, Increasing, RowsOf, SortedKeys, Entries,
      PreChain;
    var names := SortStrings(Names(rotated));
    IncreasingUnique(names, SortedKeys(KeySet(Names(rotated))));
    var files := seq(|names|, i requires 0 <= i < |names| => DataOf(rotated, names[i]));
    files := files + if active.Some? then [active.value] else [];
    assert files == DirOrder(rotated, active);
    var seed, entries, preChain := c.genesis, 0, 0;
    Nothing(c, c.genesis, files);
    for i := 0 to |files|
      invariant IntactFiles(c, c.genesis, files[..i]) && seed == End(c.genesis, FileLinks(files[..i]))
      invariant entries == Entries(files[..i]) && preChain == PreChain(files[..i])
    {
      var res := VerifyFile(c, files[i], seed);
      FileVerdict(c, c.genesis, files, i, seed, res);
      match res {
        case Unreadable =>
          return Failed(i, res, entries, preChain);
        case Broken(at, _, bare) =>
          return Failed(i, res, entries + at, preChain + bare);
        case Intact(scanned, bare, final) =>
          CountsNext(c, seed, files, i, res);
          seed, entries, preChain := final, entries + scanned, preChain + bare;
      }
    }
    assert files[..|files|] == files;
    v := Verified(entries, preChain, seed);
  }

  lemma Nothing(c: Keyed, seed: Digest, files: seq<string>)
    ensures IntactFiles(c, seed, files[..0]) && FileLinks(files[..0]) == []
    ensures Entries(files[..0]) == 0 && PreChain(files[..0]) == 0
  {
  }

  lemma CountsNext(c: Keyed, seed: Digest, files: seq<string>, i: nat, res: Verdict)
    requires i < |files| && res.Intact? && Judges(c, seed, Pieces(files[i]), res)
    ensures Entries(files[..i + 1]) == Entries(files[..i]) + res.scanned
    ensures PreChain(files[..i + 1]) == PreChain(files[..i]) + res.preChain
  {
    hide LastStamped, BareCount, Short, IntactRows, LinksOf, Pieces, RowsOf;
    assert files[..i + 1][..i] == files[..i];
  }

  lemma FileVerdict(c: Keyed, genesis: Digest, files: seq<string>, i: nat, seed: Digest, res: Verdict)
    requires i < |files| && IntactFiles(c, genesis, files[..i]) && seed == End(genesis, FileLinks(files[..i]))
    requires Judges(c, seed, Pieces(files[i]), res)
    ensures res.Intact? <==> IntactFiles(c, genesis, files[..i + 1])
    ensures res.Intact? ==> res.final == End(genesis, FileLinks(files[..i + 1]))
    ensures !res.Intact? ==> !IntactFiles(c, genesis, files)
  {
    hide IntactRows, LinksOf, Short, Pieces, IntactFiles, FileLinks, RowsOf;
    IntactExactly(c, seed, Pieces(files[i]), res);
    assert files[..i + 1] == files[..i] + [files[i]];
    IntactFilesSnoc(c, genesis, files[..i], files[i]);
    if IntactFiles(c, genesis, files) { IntactFilesPrefix(c, genesis, files, i + 1); }
  }
}
