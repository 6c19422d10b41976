/** Reading audit.jsonl back: the tail scan and the repair at startup (pkg/audit/audit.go) and the
    search for the digest to resume from (pkg/audit/verify.go). */
module LogLines {
  import opened Json
  import opened GoStrings
  import opened AuditChain

  // ----- Lines -----

  /** One more byte in front of a split text. */
  function Cons(ch: char, r: (seq<string>, string)): (seq<string>, string) {
    if ch == '\n' then ([""] + r.0, r.1)
    else if r.0 == [] then ([], [ch] + r.1)
    else (r.0[0 := [ch] + r.0[0]], r.1)
  }

  /** The newline-terminated lines of s, and what follows the last newline. */
  function Split(s: string): (seq<string>, string)
    decreases |s|
  {
    if s == "" then ([], "") else Cons(s[0], Split(s[1..]))
  }

  lemma SplitEmpty()
    ensures Split("") == ([], "")
  {
  }

  function Lines(s: string): seq<string> { Split(s).0 }

  function Tail(s: string): string { Split(s).1 }

  predicate OneLine(s: string) {
    '\n' !in s
  }

  function Join(ls: seq<string>): string {
    if ls == [] then "" else ls[0] + "\n" + Join(ls[1..])
  }

  lemma {:induction false} SplitOneLine(s: string)
    requires OneLine(s)
    ensures Split(s) == ([], s)
    decreases |s|
  {
    if s != "" {
      assert forall c | c in s[1..] :: c in s;
      SplitOneLine(s[1..]);
      assert s[0] in s && s == [s[0]] + s[1..];
    }
  }

  lemma ConsTail(ch: char, ls: seq<string>, t: string, l: string)
    ensures Cons(ch, (ls, t + l)) == (Cons(ch, (ls, t)).0, Cons(ch, (ls, t)).1 + l)
  {
    assert [ch] + (t + l) == [ch] + t + l;
  }

  lemma ConsLine(ch: char, ls: seq<string>, t: string)
    ensures Cons(ch, (ls + [t], "")) == (Cons(ch, (ls, t)).0 + [Cons(ch, (ls, t)).1], "")
  {
    assert [""] + (ls + [t]) == [""] + ls + [t];
    if ch != '\n' && ls == [] {
      assert ls + [t] == [t] && [t][0 := [ch] + t] == [] + [[ch] + t];
    } else if ch != '\n' {
      assert (ls + [t])[0 := [ch] + ls[0]] == ls[0 := [ch] + ls[0]] + [t];
    }
  }

  /** Appending a line to a text. */
  lemma {:induction false} SplitAppend(s: string, l: string)
    requires OneLine(l)
    ensures Split(s + l) == (Lines(s), Tail(s) + l)
    ensures Split(s + l + "\n") == (Lines(s) + [Tail(s) + l], "")
    decreases |s|
  {
    hide Cons;
    if s == "" {
      assert s + l == l;
      SplitOneLine(l);
      SplitTerminated(l);
      assert [] + ["" + l] == [l];
    } else {
      SplitAppend(s[1..], l);
      assert (s + l)[0] == s[0] && (s + l)[1..] == s[1..] + l;
      assert (s + l + "\n")[0] == s[0] && (s + l + "\n")[1..] == s[1..] + l + "\n";
      ConsTail(s[0], Lines(s[1..]), Tail(s[1..]), l);
      ConsLine(s[0], Lines(s[1..]), Tail(s[1..]) + l);
    }
  }

  lemma {:induction false} SplitTerminated(l: string)
    requires OneLine(l)
    ensures Split(l + "\n") == ([l], "")
    decreases |l|
  {
    if l == "" {
      assert (l + "\n")[1..] == "" && [""] + [] == [l];
    } else {
      assert forall c | c in l[1..] :: c in l;
      assert l[0] in l;
      SplitTerminated(l[1..]);
      assert (l + "\n")[0] == l[0] && (l + "\n")[1..] == l[1..] + "\n";
      assert [l[0]] + l[1..] == l && [l[1..]][0 := l] == [l];
    }
  }

  lemma {:induction false} SplitJoin(s: string)
    ensures s == Join(Lines(s)) + Tail(s) && OneLine(Tail(s)) && forall l | l in Lines(s) :: OneLine(l)
    decreases |s|
  {
    if s != "" {
      SplitJoin(s[1..]);
      var (ls, t) := Split(s[1..]);
      assert s == [s[0]] + s[1..];
      if s[0] != '\n' && ls != [] {
        assert Lines(s)[0] == [s[0]] + ls[0] && Lines(s)[1..] == ls[1..];
        assert ls[0] in ls && forall l | l in ls[1..] :: l in ls;
      }
    }
  }

  /** Where the tail starts. */
  lemma TailAt(s: string, i: nat)
    requires i < |s| && s[i] == '\n' && OneLine(s[i + 1..])
    ensures Tail(s) == s[i + 1..] && Lines(s) == Lines(s[..i + 1]) && Tail(s[..i + 1]) == "" && Lines(s) != []
  {
    var front := s[..i];
    SplitAppend(front, "");
    assert s[..i + 1] == front + "" + "\n";
    SplitAppend(s[..i + 1], s[i + 1..]);
    assert s == s[..i + 1] + s[i + 1..];
  }

  // ----- readLastLine -----

  method LastIndexNewline(b: string) returns (r: int)
    ensures r == -1 ==> OneLine(b)
    ensures r != -1 ==> 0 <= r < |b| && b[r] == '\n' && OneLine(b[r + 1..])
  {
    var i := |b| - 1;
    while i >= 0
      invariant -1 <= i < |b|
      invariant OneLine(b[i + 1..])
    {
      if b[i] == '\n' {
        return i;
      }
      assert b[i..] == [b[i]] + b[i + 1..];
      i := i - 1;
    }
    assert b[0..] == b;
    r := -1;
  }

  function TrimEnd(s: string): string
    decreases |s|
  {
    if s != "" && (s[|s| - 1] == '\r' || s[|s| - 1] == '\n') then TrimEnd(s[..|s| - 1]) else s
  }

  const CHUNK := 4096

  /** readLastLine over a readable file: the doubling window ends, and finds the text after the last
      newline whatever the length of the records. */
  method ReadLastLine(data: string) returns (lastLine: string, start: nat, ok: bool)
    requires data != ""
    ensures ok <==> Lines(data) != []
    ensures ok ==> start == |data| - |Tail(data)| && data[start..] == Tail(data) && lastLine == TrimEnd(Tail(data))
    ensures !ok ==> lastLine == "" && start == 0
  {
    hide Split, TrimEnd;
    var size := |data|;
    var bufSize := if CHUNK > size then size else CHUNK;
    while true
      invariant 0 < bufSize <= size
      decreases size - bufSize
    {
      var offset := size - bufSize;
      var buf := data[offset..];
      var idx := LastIndexNewline(buf);
      if idx >= 0 {
        var afterNL := offset + idx + 1;
        assert data[afterNL..] == buf[idx + 1..];
        TailAt(data, afterNL - 1);
        return TrimEnd(buf[idx + 1..]), afterNL, true;
      }
      if offset == 0 {
        assert buf == data;
        SplitOneLine(data);
        return "", 0, false;
      }
      bufSize := bufSize * 2;
      if bufSize > size {
        bufSize := size;
      }
    }
  }

  // ----- recoverCorruption -----

  /** What the startup repair leaves of the file. */
  function Recover(data: string, truncateOk: bool): string {
    if Lines(data) != [] && TrimEnd(Tail(data)) != "" && DecodeWhole(TrimEnd(Tail(data))) == None && truncateOk
       && |Tail(data)| <= |data|
    then data[..|data| - |Tail(data)|]
    else data
  }

  /** recoverCorruption on an existing file. */
  method RecoverCorruption(data: string, truncateOk: bool) returns (r: string)
    ensures r == Recover(data, truncateOk)
  {
    hide Split, TrimEnd, DecodeWhole;
    if data == "" {
      SplitEmpty();
      return data;
    }
    var lastLine, start, ok := ReadLastLine(data);
    if !ok {
      return data;
    }
    if lastLine == "" {
      return data;
    }
    var js := DecodeWhole(lastLine);
    if js.Some? {
      return data;
    }
    if truncateOk {
      r := data[..start];
    } else {
      r := data;
    }
  }

  /** The repair never touches a newline-terminated record: it keeps all of them byte for byte, and
      drops at most the unterminated tail, and only one that is not JSON. */
  lemma RecoverKeepsRecords(data: string, truncateOk: bool)
    ensures Lines(Recover(data, truncateOk)) == Lines(data)
    ensures Join(Lines(data)) <= Recover(data, truncateOk) <= data
    ensures Tail(Recover(data, truncateOk)) == Tail(data)
            || (Tail(Recover(data, truncateOk)) == "" && DecodeWhole(TrimEnd(Tail(data))) == None && Lines(data) != [])
  {
    hide TrimEnd, DecodeWhole, Split;
    SplitJoin(data);
    var ls := Lines(data);
    var kept := data[..|data| - |Tail(data)|];
    assert kept == Join(ls);
    if ls != [] {
      JoinSplit(ls);
    }
  }

  lemma {:induction false} JoinSplit(ls: seq<string>)
    requires forall l | l in ls :: OneLine(l)
    ensures Split(Join(ls)) == (ls, "")
    decreases |ls|
  {
    hide Split;
    if ls == [] {
      SplitEmpty();
    } else {
      var n := |ls| - 1;
      JoinSplit(ls[..n]);
      JoinSnoc(ls[..n], ls[n]);
      assert ls == ls[..n] + [ls[n]];
      SplitAppend(Join(ls[..n]), ls[n]);
      assert "" + ls[n] == ls[n];
    }
  }

  lemma {:induction false} JoinSnoc(ls: seq<string>, l: string)
    ensures Join(ls + [l]) == Join(ls) + l + "\n"
    decreases |ls|
  {
    if ls == [] {
      assert ls + [l] == [l] && [l][1..] == [];
    } else {
      assert (ls + [l])[0] == ls[0] && (ls + [l])[1..] == ls[1..] + [l];
      JoinSnoc(ls[1..], l);
    }
  }

  // ----- readChainSeedFromFile -----

  /** Every number of v fits in a float64: json.Unmarshal without UseNumber refuses the others. */
  ghost predicate Fits(c: Keyed, v: Value) {
    match v
    case Num(text) => c.fits(text)
    case Arr(xs) => forall x | x in xs :: Fits(c, x)
    case Obj(m) => forall k | k in m :: Fits(c, m[k])
    case _ => true
  }

  /** json.Unmarshal into a map[string]any. */
  ghost function UnmarshalMap(c: Keyed, s: string): Option<map<string, Value>> {
    match DecodeWhole(s)
    case Some(Obj(m)) => if Fits(c, Obj(m)) then Some(m) else None
    case Some(Null) => Some(map[])
    case _ => None
  }

  /** All pieces of s between newlines, the last one included. */
  function Segments(s: string): seq<string> {
    Lines(s) + [Tail(s)]
  }

  /** The digest in the last piece that is a JSON object; None if that piece carries none. */
  ghost function SeedOf(c: Keyed, segs: seq<string>): Option<Digest> {
    if segs == [] then None
    else
      var s := TrimSpace(segs[|segs| - 1]);
      if s == "" || UnmarshalMap(c, s) == None then SeedOf(c, segs[..|segs| - 1])
      else StampOf(UnmarshalMap(c, s).value)
  }

  /** Decides Fits. */
  method CheckFits(c: Keyed, v: Value) returns (ok: bool)
    ensures ok <==> Fits(c, v)
    decreases v, 1
  {
    match v {
      case Num(text) => ok := c.fits(text);
      case Arr(xs) =>
        for i := 0 to |xs|
          invariant forall j | 0 <= j < i :: Fits(c, xs[j])
        {
          ok := CheckFits(c, xs[i]);
          if !ok { return; }
        }
        ok := true;
      case Obj(m) =>
        var todo := m.Keys;
        while todo != {}
          invariant todo <= m.Keys && forall k | k in m && k !in todo :: Fits(c, m[k])
          decreases todo
        {
          var k :| k in todo;
          ok := CheckFits(c, m[k]);
          if !ok { return; }
          todo := todo - {k};
        }
        ok := true;
      case _ => ok := true;
    }
  }

  method Unmarshal(c: Keyed, s: string) returns (r: Option<map<string, Value>>)
    ensures r == UnmarshalMap(c, s)
  {
    hide DecodeWhole, Fits;
    var v := DecodeWhole(s);
    if v.Some? && v.value.Obj? {
      var ok := CheckFits(c, v.value);
      return if ok then Some(v.value.fields) else None;
    }
    r := if v == Some(Null) then Some(map[]) else None;
  }

  lemma SegmentsAppend(s: string, l: string)
    requires OneLine(l)
    ensures Segments(s + "\n" + l) == Segments(s) + [l]
  {
    hide Split;
    SplitAppend(s, "");
    assert s + "" + "\n" == s + "\n" && Tail(s) + "" == Tail(s);
    SplitAppend(s + "\n", l);
    assert "" + l == l;
  }

  lemma SeedStep(c: Keyed, segs: seq<string>, l: string)
    ensures SeedOf(c, segs + [l]) == if TrimSpace(l) == "" || UnmarshalMap(c, TrimSpace(l)) == None then SeedOf(c, segs)
                                     else StampOf(UnmarshalMap(c, TrimSpace(l)).value)
  {
    hide TrimSpace, UnmarshalMap;
    assert (segs + [l])[..|segs|] == segs;
  }

  /** A newline at the end changes nothing. */
  lemma SeedNewline(c: Keyed, s: string)
    ensures SeedOf(c, Segments(s + "\n")) == SeedOf(c, Segments(s))
  {
    hide TrimSpace, UnmarshalMap, Split, SeedOf;
    SegmentsAppend(s, "");
    assert s + "\n" + "" == s + "\n";
    SeedStep(c, Segments(s), "");
    TrimEmpty();
  }

  /** Which piece decides: the last one that is no blank and unmarshals into a map, whether it carries a
      digest or not. */
  lemma {:induction false} SeedIsLast(c: Keyed, segs: seq<string>)
    ensures if exists i :: 0 <= i < |segs| && Unmarshals(c, segs[i])
            then exists i :: 0 <= i < |segs| && Unmarshals(c, segs[i])
                             && (forall j | i < j < |segs| :: !Unmarshals(c, segs[j]))
                             && SeedOf(c, segs) == StampOf(UnmarshalMap(c, TrimSpace(segs[i])).value)
            else SeedOf(c, segs) == None
    decreases |segs|
  {
    hide TrimSpace, UnmarshalMap, StampOf;
    if segs != [] {
      var n := |segs| - 1;
      var front := segs[..n];
      SeedIsLast(c, front);
      SeedStep(c, front, segs[n]);
      assert segs == front + [segs[n]];
      assert forall j | 0 <= j < n :: segs[j] == front[j];
    }
  }

  ghost predicate Unmarshals(c: Keyed, piece: string) {
    TrimSpace(piece) != "" && UnmarshalMap(c, TrimSpace(piece)).Some?
  }

  lemma SeedNone(c: Keyed)
    ensures SeedOf(c, []) == None
  {
  }

  lemma SeedEmpty(c: Keyed)
    ensures SeedOf(c, Segments("")) == None
  {
    hide TrimSpace, UnmarshalMap;
    TrimEmpty();
    SeedStep(c, [], "");
    assert [] + [""] == Segments("");
  }

  /** The last line of data[..end], from start, decides the seed unless it is blank or unreadable. */
  lemma SeedLine(c: Keyed, data: string, start: nat, end: nat)
    requires start < end <= |data| && OneLine(data[start..end])
    requires start == 0 || data[start - 1] == '\n'
    ensures var s := TrimSpace(data[start..end]);
            SeedOf(c, Segments(data[..end])) ==
            if s == "" || UnmarshalMap(c, s) == None
            then SeedOf(c, Segments(data[..if start == 0 then 0 else start - 1]))
            else StampOf(UnmarshalMap(c, s).value)
  {
    hide SeedOf, Split, TrimSpace, UnmarshalMap, StampOf;
    var line := data[start..end];
    if start == 0 {
      SeedEmpty(c);
      assert data[..0] == "";
      SplitOneLine(line);
      SeedStep(c, [], line);
      SeedStep(c, [], "");
      TrimEmpty();
      assert data[..end] == line && Segments(line) == [] + [line];
      SeedNone(c);
    } else {
      assert data[..end] == data[..start - 1] + "\n" + line;
      SegmentsAppend(data[..start - 1], line);
      SeedStep(c, Segments(data[..start - 1]), line);
    }
  }

  /** Steps back over newline bytes. */
  method SkipNewlines(c: Keyed, data: string, from: nat) returns (end: nat)
    requires from <= |data|
    ensures end <= from && (end > 0 ==> data[end - 1] != '\n')
    ensures SeedOf(c, Segments(data[..end])) == SeedOf(c, Segments(data[..from]))
  {
    hide SeedOf, Segments;
    end := from;
    while end > 0 && data[end - 1] == '\n'
      invariant end <= from
      invariant SeedOf(c, Segments(data[..end])) == SeedOf(c, Segments(data[..from]))
    {
      SeedNewline(c, data[..end - 1]);
      assert data[..end] == data[..end - 1] + "\n";
      end := end - 1;
    }
  }

  /** readChainSeedFromFile over the bytes of the file. */
  method ReadChainSeed(c: Keyed, data: string) returns (seed: Option<Digest>)
    ensures seed == SeedOf(c, Segments(data))
  {
    hide SeedOf, Segments, TrimSpace, UnmarshalMap, StampOf;
    SeedEmpty(c);
    assert data[..|data|] == data && data[..0] == "";
    var end := SkipNewlines(c, data, |data|);
    if end == 0 {
      return None;
    }
    while end > 0
      invariant 0 <= end <= |data| && (end > 0 ==> data[end - 1] != '\n')
      invariant SeedOf(c, Segments(data)) == SeedOf(c, Segments(data[..end]))
      decreases end
    {
      var start := end - 1;
      while start > 0 && data[start - 1] != '\n'
        invariant 0 <= start < end && OneLine(data[start..end])
      {
        assert data[start - 1..end] == [data[start - 1]] + data[start..end];
        start := start - 1;
      }
      SeedLine(c, data, start, end);
      var s := TrimSpace(data[start..end]);
      if start == 0 {
        end := 0;
      } else {
        end := SkipNewlines(c, data, start - 1);
      }
      if s == "" {
        continue;
      }
      var m := Unmarshal(c, s);
      if m == None {
        continue;
      }
      return StampOf(m.value);
    }
    seed := None;
  }
}
