/** The brace scanner of evals/judge/scorer.go, and how it moves over JSON texts. */
module Braces {
  import opened Json

  datatype Scan = Scan(depth: int, inStr: bool, escaped: bool)

  /** One byte of the scanner loop. */
  function Next(st: Scan, ch: char): Scan {
    if st.escaped then st.(escaped := false)
    else if ch == '\\' then st.(escaped := st.inStr)
    else if ch == '\"' then st.(inStr := !st.inStr)
    else if ch == '{' && !st.inStr then st.(depth := st.depth + 1)
    else if ch == '}' && !st.inStr then st.(depth := st.depth - 1)
    else st
  }

  function Run(st: Scan, s: string): Scan
    decreases |s|
  {
    if s == "" then st else Run(Next(st, s[0]), s[1..])
  }

  /** Every state reached while reading s, the first and the last included, has depth d or more. */
  predicate Above(st: Scan, s: string, d: int)
    decreases |s|
  {
    st.depth >= d && (s != "" ==> Above(Next(st, s[0]), s[1..], d))
  }

  lemma {:induction false} Concat(st: Scan, a: string, b: string, d: int)
    ensures Run(st, a + b) == Run(Run(st, a), b)
    ensures Above(st, a + b, d) <==> Above(st, a, d) && Above(Run(st, a), b, d)
    decreases |a|
  {
    if a == "" {
      assert a + b == b;
    } else {
      assert (a + b)[0] == a[0] && (a + b)[1..] == a[1..] + b;
      Concat(Next(st, a[0]), a[1..], b, d);
    }
  }

  lemma RunOne(st: Scan, c: char)
    ensures Run(st, [c]) == Next(st, c)
    ensures forall d :: Above(st, [c], d) <==> st.depth >= d && Next(st, c).depth >= d
  {
    assert [c][1..] == "";
  }

  /** Reading c goes from st to st' and never below st. */
  predicate Moves(st: Scan, c: string, st': Scan) {
    Run(st, c) == st' && Above(st, c, st.depth)
  }

  lemma MovesConcat(st: Scan, a: string, st': Scan, b: string, st'': Scan)
    requires Moves(st, a, st') && Moves(st', b, st'') && st.depth <= st'.depth
    ensures Moves(st, a + b, st'')
  {
    Concat(st, a, b, st.depth);
    AboveWeaken(st', b, st'.depth, st.depth);
  }

  lemma {:induction false} AboveWeaken(st: Scan, s: string, d: int, e: int)
    requires Above(st, s, d) && e <= d
    ensures Above(st, s, e)
    decreases |s|
  {
    if s != "" { AboveWeaken(Next(st, s[0]), s[1..], d, e); }
  }

  /** Bytes that mean nothing to the scanner. */
  predicate Dull(s: string) {
    forall c | c in s :: c != '\\' && c != '\"' && c != '{' && c != '}'
  }

  lemma {:induction false} MovesDull(st: Scan, s: string)
    requires !st.escaped && Dull(s)
    ensures Moves(st, s, st)
    decreases |s|
  {
    if s != "" {
      assert s[0] in s && forall c | c in s[1..] :: c in s;
      MovesDull(st, s[1..]);
    }
  }

  const OUTSIDE := Scan(0, false, false)

  function At(d: int): Scan { Scan(d, false, false) }

  function Inside(d: int): Scan { Scan(d, true, false) }

  // ----- Pieces of a JSON text; each lemma returns the part of s that was read -----

  lemma {:induction false} SpaceRead(s: string, d: int) returns (c: string)
    ensures s == c + SkipSpace(s) && Moves(At(d), c, At(d))
    decreases |s|
  {
    if s != "" && IsSpace(s[0]) {
      var t := SpaceRead(s[1..], d);
      c := [s[0]] + t;
      RunOne(At(d), s[0]);
      MovesConcat(At(d), [s[0]], At(d), t, At(d));
    } else {
      c := "";
    }
  }

  lemma {:induction false} NumberRead(q: NumState, s: string) returns (c: string)
    requires ScanNumber(q, s).Some?
    ensures s == c + ScanNumber(q, s).value && Dull(c)
    ensures ScanNumber(q, c) == Some("")
    decreases |s|
  {
    if s != "" && NumStep(q, s[0]).Some? {
      var t := NumberRead(NumStep(q, s[0]).value, s[1..]);
      c := [s[0]] + t;
      assert c[0] == s[0] && c[1..] == t;
    } else {
      c := "";
    }
  }

  /** Inside a string, one piece leaves the scanner inside the string. */
  lemma PieceRead(s: string, d: int)
    requires s != "" && s[0] != '\"' && StringPiece(s).Some?
    ensures Moves(Inside(d), s[..StringPiece(s).value.1], Inside(d))
  {
    hide Moves, EncodeRune;
    var n := StringPiece(s).value.1;
    if s[0] != '\\' {
      PlainRead(s, n, d);
    } else if s[1] != 'u' {
      EscapeRead(s, d);
      assert s[..2] == [s[0], s[1]];
    } else {
      var u := s[2..];
      var k := UnescapeUnicode(u).value.1;
      UnicodeRead(u, d);
      EscapeRead(s, d);
      MovesConcat(Inside(d), s[..2], Inside(d), u[..k], Inside(d));
      assert s[..n] == s[..2] + u[..k];
    }
  }

  lemma PlainRead(s: string, n: nat, d: int)
    requires s != "" && s[0] != '\"' && s[0] != '\\'
    requires n == if RuneSize(s) == 0 then 1 else RuneSize(s)
    ensures Moves(Inside(d), s[..n], Inside(d))
  {
    var c := s[..n];
    forall k | 0 <= k < n ensures Moves(Inside(d), [s[k]], Inside(d)) {
      RunOne(Inside(d), s[k]);
    }
    PointwiseMoves(c, Inside(d));
  }

  lemma {:induction false} PointwiseMoves(c: string, st: Scan)
    requires forall k | 0 <= k < |c| :: Moves(st, [c[k]], st)
    ensures Moves(st, c, st)
    decreases |c|
  {
    if c != "" {
      PointwiseMoves(c[1..], st);
      MovesConcat(st, [c[0]], st, c[1..], st);
      assert c == [c[0]] + c[1..];
    }
  }

  lemma EscapeRead(s: string, d: int)
    requires |s| >= 2 && s[0] == '\\'
    ensures Moves(Inside(d), s[..2], Inside(d))
  {
    var c := s[..2];
    assert c[1..] == [s[1]];
    RunOne(Inside(d).(escaped := true), s[1]);
  }

  lemma UnicodeRead(u: string, d: int)
    requires UnescapeUnicode(u).Some?
    ensures Moves(Inside(d), u[..UnescapeUnicode(u).value.1], Inside(d))
  {
    hide Moves, EncodeRune;
    Hex4Read(u, d);
    if UnescapeUnicode(u).value.1 == 10 {
      EscapeRead(u[4..], d);
      Hex4Read(u[6..], d);
      MovesConcat(Inside(d), u[..4], Inside(d), u[4..][..2], Inside(d));
      MovesConcat(Inside(d), u[..4] + u[4..][..2], Inside(d), u[6..][..4], Inside(d));
      assert u[..10] == u[..4] + u[4..][..2] + u[6..][..4];
    }
  }

  lemma Hex4Read(u: string, d: int)
    requires Hex4(u).Some?
    ensures Moves(Inside(d), u[..4], Inside(d))
  {
    MovesDull(Inside(d), u[..4]);
  }

  lemma QuoteMoves(d: int)
    ensures Moves(At(d), "\"", Inside(d)) && Moves(Inside(d), "\"", At(d))
  {
    RunOne(At(d), '\"');
    RunOne(Inside(d), '\"');
  }

  lemma StartDull(c: char)
    requires NumStart(c).Some?
    ensures Dull([c])
  {
  }

  lemma {:induction false} StringRead(s: string, d: int) returns (c: string)
    requires ParseString(s).Some?
    ensures s == c + ParseString(s).value.1 && Moves(Inside(d), c, At(d))
    decreases |s|
  {
    hide StringPiece, Moves;
    if s[0] == '\"' {
      c := "\"";
      QuoteMoves(d);
    } else {
      var n := StringPiece(s).value.1;
      var t := StringRead(s[n..], d);
      PieceRead(s, d);
      MovesConcat(Inside(d), s[..n], Inside(d), t, At(d));
      c := s[..n] + t;
      assert s == s[..n] + s[n..];
    }
  }

  /** A whole value leaves the scanner where it was. */
  lemma {:induction false} ValueRead(s: string, d: int) returns (c: string)
    requires ParseValue(s).Some?
    ensures s == c + ParseValue(s).value.1 && Moves(At(d), c, At(d))
    decreases |s|, 2
  {
    hide Moves, ParseString, ParseItems, ParseFields, ScanNumber, NumStart;
    if "null" <= s || "true" <= s || "false" <= s {
      c := if "null" <= s || "true" <= s then s[..4] else s[..5];
      ConstantRead(c, d);
    } else if s[0] == '\"' {
      var t := StringRead(s[1..], d);
      c := "\"" + t;
      QuoteMoves(d);
      MovesConcat(At(d), "\"", Inside(d), t, At(d));
    } else if s[0] == '[' {
      c := ArrayRead(s, d);
    } else if s[0] == '{' {
      var body := ObjectRead(s, d);
      c := "{" + body + "}";
      BracesAround(body, d);
    } else {
      var t := NumberRead(NumStart(s[0]).value, s[1..]);
      c := [s[0]] + t;
      StartDull(s[0]);
      MovesDull(At(d), c);
    }
  }

  lemma ConstantRead(c: string, d: int)
    requires c == "null" || c == "true" || c == "false"
    ensures Moves(At(d), c, At(d))
  {
    MovesDull(At(d), c);
  }

  lemma BracesAround(body: string, d: int)
    requires Moves(At(d + 1), body, At(d + 1))
    ensures Moves(At(d), "{" + body + "}", At(d))
  {
    hide Run, Above;
    RunOne(At(d), '{');
    RunOne(At(d + 1), '}');
    Concat(At(d), "{", body, d);
    AboveWeaken(At(d + 1), body, d + 1, d);
    Concat(At(d), "{" + body, "}", d);
  }

  lemma {:induction false} ArrayRead(s: string, d: int) returns (c: string)
    requires ParseValue(s).Some? && s[0] == '['
    ensures s == c + ParseValue(s).value.1 && Moves(At(d), c, At(d))
    decreases |s|, 1
  {
    hide Moves, ParseString, ParseItems, ParseFields, ScanNumber, NumStart, SkipSpace;
    var sp := SpaceRead(s[1..], d);
    var t := SkipSpace(s[1..]);
    MovesDull(At(d), "[");
    MovesConcat(At(d), "[", At(d), sp, At(d));
    var rest: string;
    if t != "" && t[0] == ']' {
      rest := "]";
      MovesDull(At(d), "]");
    } else {
      rest := ItemsRead(t, d);
    }
    c := "[" + sp + rest;
    MovesConcat(At(d), "[" + sp, At(d), rest, At(d));
    assert s == "[" + s[1..];
  }

  lemma {:induction false} ItemsRead(s: string, d: int) returns (c: string)
    requires ParseItems(s).Some?
    ensures s == c + ParseItems(s).value.1 && Moves(At(d), c, At(d))
    decreases |s|, 3
  {
    hide Moves, ParseValue, SkipSpace;
    var x := ValueRead(s, d);
    var rest := ParseValue(s).value.1;
    var sp := SpaceRead(rest, d);
    var t := SkipSpace(rest);
    MovesConcat(At(d), x, At(d), sp, At(d));
    MovesDull(At(d), [t[0]]);
    MovesConcat(At(d), x + sp, At(d), [t[0]], At(d));
    c := x + sp + [t[0]];
    assert s == c + t[1..];
    if t[0] == ',' {
      var sp' := SpaceRead(t[1..], d);
      var more := ItemsRead(SkipSpace(t[1..]), d);
      MovesConcat(At(d), c, At(d), sp', At(d));
      MovesConcat(At(d), c + sp', At(d), more, At(d));
      c := c + sp' + more;
    }
  }

  /** An object is an opening brace, a body that never closes it, and the closing brace. */
  lemma {:induction false} ObjectRead(s: string, d: int) returns (body: string)
    requires ParseValue(s).Some? && s[0] == '{'
    ensures s == "{" + body + "}" + ParseValue(s).value.1 && Moves(At(d + 1), body, At(d + 1))
    decreases |s|, 1
  {
    hide Moves, ParseString, ParseItems, ParseFields, ScanNumber, NumStart, SkipSpace;
    var sp := SpaceRead(s[1..], d + 1);
    var t := SkipSpace(s[1..]);
    assert s == "{" + s[1..];
    if t != "" && t[0] == '}' {
      body := sp;
      assert t == "}" + t[1..];
    } else {
      var rest := FieldsRead(map[], t, d + 1);
      body := sp + rest;
      MovesConcat(At(d + 1), sp, At(d + 1), rest, At(d + 1));
    }
  }

  /** The members of an object up to, and without, its closing brace. */
  lemma {:induction false} FieldsRead(acc: map<string, Value>, s: string, d: int) returns (c: string)
    requires ParseFields(acc, s).Some?
    ensures s == c + "}" + ParseFields(acc, s).value.1 && Moves(At(d), c, At(d))
    decreases |s|, 3
  {
    hide Moves, ParseValue, ParseString, SkipSpace;
    var key := KeyRead(s, d);
    var (k, afterKey) := ParseString(s[1..]).value;
    var colon := SkipSpace(afterKey);
    var sp := SpaceRead(colon[1..], d);
    var valueText := SkipSpace(colon[1..]);
    var x := ValueRead(valueText, d);
    var (v, rest) := ParseValue(valueText).value;
    var sp' := SpaceRead(rest, d);
    var t := SkipSpace(rest);
    MovesConcat(At(d), key, At(d), sp, At(d));
    MovesConcat(At(d), key + sp, At(d), x, At(d));
    MovesConcat(At(d), key + sp + x, At(d), sp', At(d));
    c := key + sp + x + sp';
    assert s == c + t;
    if t[0] == '}' {
      assert t == "}" + t[1..];
    } else {
      c := MoreFields(acc[k := v], c, t, d);
    }
  }

  lemma {:induction false} MoreFields(acc: map<string, Value>, head: string, t: string, d: int) returns (c: string)
    requires t != "" && t[0] == ',' && Moves(At(d), head, At(d))
    requires ParseFields(acc, SkipSpace(t[1..])).Some?
    ensures head + t == c + "}" + ParseFields(acc, SkipSpace(t[1..])).value.1 && Moves(At(d), c, At(d))
    decreases |t|, 2
  {
    hide Moves, ParseFields, SkipSpace;
    var sp := SpaceRead(t[1..], d);
    var more := FieldsRead(acc, SkipSpace(t[1..]), d);
    MovesDull(At(d), ",");
    MovesConcat(At(d), head, At(d), ",", At(d));
    MovesConcat(At(d), head + ",", At(d), sp, At(d));
    MovesConcat(At(d), head + "," + sp, At(d), more, At(d));
    c := head + "," + sp + more;
    assert t == "," + t[1..];
  }

  /** A key, the white space after it and the colon. */
  lemma KeyRead(s: string, d: int) returns (c: string)
    requires s != "" && s[0] == '\"' && ParseString(s[1..]).Some?
    requires var colon := SkipSpace(ParseString(s[1..]).value.1); colon != "" && colon[0] == ':'
    ensures s == c + SkipSpace(ParseString(s[1..]).value.1)[1..] && Moves(At(d), c, At(d))
  {
    hide Moves, ParseString, SkipSpace;
    var t := StringRead(s[1..], d);
    var afterKey := ParseString(s[1..]).value.1;
    var sp := SpaceRead(afterKey, d);
    QuoteMoves(d);
    MovesConcat(At(d), "\"", Inside(d), t, At(d));
    MovesConcat(At(d), "\"" + t, At(d), sp, At(d));
    MovesDull(At(d), ":");
    MovesConcat(At(d), "\"" + t + sp, At(d), ":", At(d));
    c := "\"" + t + sp + ":";
    assert SkipSpace(afterKey) == ":" + SkipSpace(afterKey)[1..];
    assert s == "\"" + s[1..];
  }
}
