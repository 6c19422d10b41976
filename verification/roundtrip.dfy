/** Reading back what the canonical printers write. */
module RoundTrip {
  import opened Json
  import opened Canonical

  /** A text that cannot lengthen a number standing before it. */
  predicate Breaks(r: string) {
    r == "" || !(IsDigit(r[0]) || r[0] == '.' || r[0] == 'e' || r[0] == 'E')
  }

  lemma BreaksStop(q: NumState, r: string)
    requires NumDone(q) && Breaks(r)
    ensures r == "" || NumStep(q, r[0]) == None
  {
  }

  lemma {:induction false} NumberRoundTrip(q: NumState, t: string, r: string)
    requires ScanNumber(q, t) == Some("") && Breaks(r)
    ensures ScanNumber(q, t + r) == Some(r)
    decreases |t|
  {
    hide NumStep, Breaks;
    if t == "" {
      assert t + r == r;
      assert NumDone(q);
      BreaksStop(q, r);
    } else {
      hide ScanNumber;
      var s := t + r;
      assert s[0] == t[0] && s[1..] == t[1..] + r;
      NumberRoundTrip(NumStep(q, t[0]).value, t[1..], r);
    }
  }

  // ----- Strings -----

  lemma {:induction false} HexRoundTrip(c: char, t: string)
    requires c < '\U{80}'
    ensures Hex4("00" + [HexDigit(c as nat / 16), HexDigit(c as nat % 16)] + t) == Some(c as nat)
  {
    var hi, lo := c as nat / 16, c as nat % 16;
    assert HexValue(HexDigit(hi)) == Some(hi) by { HexDigitValue(hi); }
    assert HexValue(HexDigit(lo)) == Some(lo) by { HexDigitValue(lo); }
    var s := "00" + [HexDigit(hi), HexDigit(lo)] + t;
    assert s[0] == '0' && s[1] == '0' && s[2] == HexDigit(hi) && s[3] == HexDigit(lo);
  }

  lemma HexDigitValue(n: nat)
    requires n < 16
    ensures HexValue(HexDigit(n)) == Some(n)
  {
    var d := "0123456789abcdef";
    if n < 10 {
      assert d[..10] == "0123456789";
      assert HexDigit(n) as nat == '0' as nat + n;
    } else {
      assert HexDigit(n) as nat == 'a' as nat + n - 10;
    }
  }

  lemma PlainPiece(c: char, t: string)
    requires ' ' <= c < '\U{80}' && c != '\\' && c != '\"'
    ensures StringPiece([c] + t) == Some(([c], 1))
  {
    var s := [c] + t;
    assert s[0] == c && s[..1] == [c];
    assert RuneSize(s) == 1;
  }

  lemma EscapedPiece(d: char, c: char, t: string)
    requires d != 'u' && SimpleEscape(d) == Some(c)
    ensures StringPiece("\\" + [d] + t) == Some(([c], 2))
  {
    var s := "\\" + [d] + t;
    assert s[0] == '\\' && s[1] == d && |s| >= 2;
  }

  lemma HexPiece(c: char, t: string)
    requires c < '\U{80}'
    ensures StringPiece("\\u00" + [HexDigit(c as nat / 16), HexDigit(c as nat % 16)] + t) == Some(([c], 6))
  {
    var h := [HexDigit(c as nat / 16), HexDigit(c as nat % 16)];
    var s := "\\u00" + h + t;
    assert s[0] == '\\' && s[1] == 'u' && |s| >= 6;
    assert s[2..] == "00" + h + t;
    HexRoundTrip(c, t);
    assert UnescapeUnicode(s[2..]) == Some((EncodeRune(c as nat), 4));
  }

  lemma AsciiRoundTrip(style: Style, c: char, t: string)
    requires c < '\U{80}'
    ensures var e := EscapeAscii(style, c);
            e != "" && e[0] != '\"' && StringPiece(e + t) == Some(([c], |e|))
  {
    var e := EscapeAscii(style, c);
    if e == [c] {
      PlainPiece(c, t);
    } else if |e| == 2 {
      assert e == "\\" + [e[1]];
      EscapedPiece(e[1], c, t);
    } else {
      HexPiece(c, t);
    }
  }

  lemma SeparatorPiece(e: string, t: string)
    requires e == "\\u2028" || e == "\\u2029"
    ensures StringPiece(e + t) == Some((if e == "\\u2028" then LINE_SEPARATOR else PARAGRAPH_SEPARATOR, 6))
  {
    var s := e + t;
    assert s[0] == '\\' && s[1] == 'u' && |s| >= 6;
    var u := s[2..];
    assert u[0] == '2' && u[1] == '0' && u[2] == '2' && u[3] == e[5];
    var r := if e == "\\u2028" then 0x2028 else 0x2029;
    assert Hex4(u) == Some(r);
    assert EncodeRune(r) == if e == "\\u2028" then LINE_SEPARATOR else PARAGRAPH_SEPARATOR;
  }

  lemma RunePiece(s: string, t: string)
    requires s != "" && RuneSize(s) > 1
    ensures StringPiece(s[..RuneSize(s)] + t) == Some((s[..RuneSize(s)], RuneSize(s)))
  {
    var u := s[..RuneSize(s)] + t;
    assert u[0] == s[0] && u[..RuneSize(s)] == s[..RuneSize(s)];
  }

  /** The printed form of one rune decodes to that rune, whatever follows it. */
  lemma PieceRoundTrip(style: Style, s: string, t: string)
    requires s != "" && RuneSize(s) > 0
    ensures var e := EscapeHead(style, s);
            e != "" && e[0] != '\"' && StringPiece(e + t) == Some((s[..RuneSize(s)], |e|))
  {
    if s[0] < '\U{80}' {
      AsciiRoundTrip(style, s[0], t);
      assert s[..1] == [s[0]];
    } else {
      var rune := s[..RuneSize(s)];
      if style.GoMarshal? && rune == LINE_SEPARATOR {
        SeparatorPiece("\\u2028", t);
      } else if style.GoMarshal? && rune == PARAGRAPH_SEPARATOR {
        SeparatorPiece("\\u2029", t);
      } else {
        RunePiece(s, t);
      }
    }
  }

  lemma {:induction false} StringRoundTrip(style: Style, s: string, r: string)
    requires ValidUtf8(s)
    ensures ParseString(Escape(style, s) + "\"" + r) == Some((s, r))
    decreases |s|
  {
    hide StringPiece, EscapeHead, RuneSize;
    var text := Escape(style, s) + "\"" + r;
    if s == "" {
      assert text == "\"" + r;
    } else {
      var n := RuneSize(s);
      var e := EscapeHead(style, s);
      var tail := Escape(style, s[n..]) + "\"" + r;
      assert text == e + tail;
      PieceRoundTrip(style, s, tail);
      assert text[|e|..] == tail;
      StringRoundTrip(style, s[n..], r);
      assert s == s[..n] + s[n..];
    }
  }

  // ----- Documents -----

  /** Texts whose first byte the parser neither skips nor takes for a closing bracket. */
  predicate Opens(p: string) {
    p != "" && !IsSpace(p[0]) && p[0] != ']' && p[0] != '}'
  }

  lemma PrintOpens(style: Style, v: Value)
    requires Clean(v)
    ensures Opens(Print(style, v))
  {
    hide Escape, PrintItems, PrintFields, ScanNumber, SortedKeys;
    var p := Print(style, v);
    match v
    case Null => assert p[0] == 'n';
    case Bool(b) => assert p[0] == if b then 't' else 'f';
    case Num(t) => assert NumStart(t[0]).Some?;
    case Str(s) => assert p[0] == '\"';
    case Arr(xs) => assert p[0] == '[';
    case Obj(m) => assert p[0] == '{';
  }

  lemma ItemsHead(style: Style, xs: seq<Value>)
    requires xs != [] && Print(style, xs[0]) != ""
    ensures PrintItems(style, xs) != "" && PrintItems(style, xs)[0] == Print(style, xs[0])[0]
  {
  }

  lemma FieldsHead(style: Style, v: Value, ks: seq<string>)
    requires v.Obj? && ks != [] && forall k | k in ks :: k in v.fields
    ensures PrintFields(style, v, ks) != "" && PrintFields(style, v, ks)[0] == '\"'
  {
  }

  lemma ParseArrayStep(body: string, xs: seq<Value>, r: string)
    requires Opens(body) && ParseItems(body) == Some((xs, r))
    ensures ParseValue("[" + body) == Some((Arr(xs), r))
  {
    hide ParseItems, ParseFields, ParseString, ScanNumber;
    var s := "[" + body;
    assert s[0] == '[' && s[1..] == body;
  }

  lemma ParseObjectStep(body: string, m: map<string, Value>, r: string)
    requires Opens(body) && ParseFields(map[], body) == Some((m, r))
    ensures ParseValue("{" + body) == Some((Obj(m), r))
  {
    hide ParseItems, ParseFields, ParseString, ScanNumber;
    var s := "{" + body;
    assert s[0] == '{' && s[1..] == body;
  }

  lemma NumberValue(t: string, r: string)
    requires ValidNumber(t) && Breaks(r)
    ensures ParseValue(t + r) == Some((Num(t), r))
  {
    hide NumStep, ScanNumber, ParseString, ParseItems, ParseFields;
    var text := t + r;
    assert text[0] == t[0] && text[1..] == t[1..] + r;
    NumberRoundTrip(NumStart(t[0]).value, t[1..], r);
    assert text[..|text| - |r|] == t;
  }

  lemma StringValue(style: Style, s: string, r: string)
    requires ValidUtf8(s)
    ensures ParseValue(Quote(style, s) + r) == Some((Str(s), r))
  {
    hide Escape, ScanNumber, ParseString, ParseItems, ParseFields;
    var text := Quote(style, s) + r;
    assert text[0] == '\"' && text[1..] == Escape(style, s) + "\"" + r;
    StringRoundTrip(style, s, r);
  }

  lemma ConstantValue(r: string)
    ensures ParseValue("null" + r) == Some((Null, r))
    ensures ParseValue("true" + r) == Some((Bool(true), r))
    ensures ParseValue("false" + r) == Some((Bool(false), r))
  {
    hide ScanNumber, ParseString, ParseItems, ParseFields, SkipSpace, NumStart;
    var n, t, f := "null" + r, "true" + r, "false" + r;
    assert n[0] == 'n' && n[4..] == r;
    assert t[0] == 't' && t[4..] == r;
    assert f[0] == 'f' && f[5..] == r;
  }

  lemma EmptyContainer(r: string)
    ensures ParseValue("[]" + r) == Some((Arr([]), r))
    ensures ParseValue("{}" + r) == Some((Obj(map[]), r))
  {
    hide ScanNumber, ParseString, ParseItems, ParseFields, NumStart;
    assert ("[]" + r)[1..] == "]" + r && ("]" + r)[1..] == r;
    assert ("{}" + r)[1..] == "}" + r && ("}" + r)[1..] == r;
  }

  lemma PrintEmpty(style: Style)
    ensures Print(style, Arr([])) == "[]" && Print(style, Obj(map[])) == "{}"
  {
    var m: map<string, Value> := map[];
    KeySetEmpty(SortedKeys(m.Keys));
    assert SortedKeys(m.Keys) == [];
    calc {
      Print(style, Obj(m));
      "{" + PrintFields(style, Obj(m), []) + "}";
      "{}";
    }
  }

  lemma {:induction false} ValueRoundTrip(style: Style, v: Value, r: string)
    requires Clean(v) && Breaks(r)
    ensures ParseValue(Print(style, v) + r) == Some((v, r))
    decreases v, 2, 0
  {
    hide ParseValue, PrintItems, PrintFields, Escape, ScanNumber;
    ConstantValue(r);
    EmptyContainer(r);
    PrintEmpty(style);
    match v {
      case Null =>
      case Bool(b) =>
      case Num(t) => NumberValue(t, r);
      case Str(s) => StringValue(style, s, r);
      case Arr(xs) => if xs != [] { ArrayRoundTrip(style, xs, r); }
      case Obj(m) => if m != map[] { ObjectRoundTrip(style, v, r); }
    }
  }

  lemma {:induction false} ArrayRoundTrip(style: Style, xs: seq<Value>, r: string)
    requires xs != [] && forall x | x in xs :: Clean(x)
    ensures ParseValue(Print(style, Arr(xs)) + r) == Some((Arr(xs), r))
    decreases xs, 1, 0
  {
    hide ParseValue, ParseItems, PrintItems, Escape, Clean;
    var body := PrintItems(style, xs) + "]" + r;
    ItemsRoundTrip(style, xs, r);
    PrintOpens(style, xs[0]);
    ItemsHead(style, xs);
    ParseArrayStep(body, xs, r);
    assert Print(style, Arr(xs)) + r == "[" + body;
  }

  lemma {:induction false} ObjectRoundTrip(style: Style, v: Value, r: string)
    requires v.Obj? && v.fields != map[] && Clean(v)
    ensures ParseValue(Print(style, v) + r) == Some((v, r))
    decreases v, 1, 0
  {
    hide ParseValue, ParseFields, PrintFields, Escape, Clean;
    var ks := SortedKeys(v.fields.Keys);
    var body := PrintFields(style, v, ks) + "}" + r;
    KeysOf(v.fields, ks);
    FieldsRoundTrip(style, v, ks, map[], r);
    FieldsHead(style, v, ks);
    ParseObjectStep(body, v.fields, r);
    assert Print(style, v) + r == "{" + body;
  }

  lemma KeysOf(m: map<string, Value>, ks: seq<string>)
    requires m != map[] && KeySet(ks) == m.Keys
    ensures ks != [] && (forall k | k in ks :: k in m) && map[] + (map k | k in ks :: m[k]) == m
  {
    KeySetEmpty(ks);
    assert forall k :: k in ks <==> k in KeySet(ks);
  }

  /** One step of the item parser. */
  lemma ParseItemsStep(s: string, x: Value, tail: string)
    requires ParseValue(s) == Some((x, tail))
    requires tail != "" && (tail[0] == ',' || tail[0] == ']')
    ensures ParseItems(s) == if tail[0] == ']' then Some(([x], tail[1..]))
                             else match ParseItems(SkipSpace(tail[1..]))
                                  case Some((xs, end)) => Some(([x] + xs, end))
                                  case None => None
  {
    hide ParseValue;
  }

  lemma PrintItemsStep(style: Style, xs: seq<Value>, r: string)
    requires xs != []
    ensures PrintItems(style, xs) + "]" + r
            == Print(style, xs[0]) + (if |xs| == 1 then "]" + r else "," + (PrintItems(style, xs[1..]) + "]" + r))
  {
    hide Print;
  }

  lemma {:induction false} ItemsRoundTrip(style: Style, xs: seq<Value>, r: string)
    requires xs != [] && forall x | x in xs :: Clean(x)
    ensures ParseItems(PrintItems(style, xs) + "]" + r) == Some((xs, r))
    decreases xs, 0, |xs|
  {
    hide Print, ParseValue, PrintItems, ParseItems, Clean;
    var tail := if |xs| == 1 then "]" + r else "," + (PrintItems(style, xs[1..]) + "]" + r);
    PrintItemsStep(style, xs, r);
    ValueRoundTrip(style, xs[0], tail);
    ParseItemsStep(Print(style, xs[0]) + tail, xs[0], tail);
    assert xs == [xs[0]] + xs[1..];
    if |xs| == 1 {
      assert tail[0] == ']' && tail[1..] == r && xs == [xs[0]];
    } else {
      assert tail[1..] == PrintItems(style, xs[1..]) + "]" + r;
      PrintOpens(style, xs[1]);
      ItemsHead(style, xs[1..]);
      ItemsRoundTrip(style, xs[1..], r);
    }
  }

  /** One step of the member parser. */
  lemma ParseFieldsStep(acc: map<string, Value>, s: string, k: string, colon: string, x: Value, tail: string)
    requires s != "" && s[0] == '\"' && ParseString(s[1..]) == Some((k, colon))
    requires colon != "" && colon[0] == ':' && SkipSpace(colon[1..]) == colon[1..]
    requires ParseValue(colon[1..]) == Some((x, tail))
    requires tail != "" && (tail[0] == ',' || tail[0] == '}')
    ensures ParseFields(acc, s) == if tail[0] == '}' then Some((acc[k := x], tail[1..]))
                                   else ParseFields(acc[k := x], SkipSpace(tail[1..]))
  {
    hide ParseValue, ParseString;
  }

  lemma PrintFieldsStep(style: Style, v: Value, ks: seq<string>, r: string)
    requires v.Obj? && ks != [] && forall k | k in ks :: k in v.fields
    ensures PrintFields(style, v, ks) + "}" + r
            == "\"" + (Escape(style, ks[0]) + "\"" + (":" + (Print(style, v.fields[ks[0]])
               + (if |ks| == 1 then "}" + r else "," + (PrintFields(style, v, ks[1..]) + "}" + r)))))
  {
    hide Print, Escape;
  }

  lemma CleanMember(v: Value, k: string)
    requires v.Obj? && Clean(v) && k in v.fields
    ensures ValidUtf8(k) && Clean(v.fields[k])
  {
  }

  lemma MergeStep(acc: map<string, Value>, m: map<string, Value>, ks: seq<string>)
    requires ks != [] && forall k | k in ks :: k in m
    ensures acc[ks[0] := m[ks[0]]] + (map j | j in ks[1..] :: m[j]) == acc + (map j | j in ks :: m[j])
  {
    assert ks == [ks[0]] + ks[1..];
  }

  lemma {:induction false} FieldsRoundTrip(style: Style, v: Value, ks: seq<string>, acc: map<string, Value>, r: string)
    requires v.Obj? && Clean(v) && ks != [] && forall k | k in ks :: k in v.fields
    ensures ParseFields(acc, PrintFields(style, v, ks) + "}" + r) == Some((acc + (map k | k in ks :: v.fields[k]), r))
    decreases v, 0, |ks|
  {
    hide Print, ParseValue, Escape, ParseString, ParseFields, PrintFields, Clean, ValidUtf8;
    CleanMember(v, ks[0]);
    var m := v.fields;
    var k, x := ks[0], m[ks[0]];
    var tail := if |ks| == 1 then "}" + r else "," + (PrintFields(style, v, ks[1..]) + "}" + r);
    var colon := ":" + (Print(style, x) + tail);
    var text := PrintFields(style, v, ks) + "}" + r;
    PrintFieldsStep(style, v, ks, r);
    assert text[0] == '\"' && text[1..] == Escape(style, k) + "\"" + colon;
    StringRoundTrip(style, k, colon);
    assert colon[1..] == Print(style, x) + tail;
    PrintOpens(style, x);
    ValueRoundTrip(style, x, tail);
    ParseFieldsStep(acc, text, k, colon, x, tail);
    if |ks| == 1 {
      assert tail[1..] == r;
      assert acc[k := x] == acc + (map j | j in ks :: m[j]);
    } else {
      assert tail[1..] == PrintFields(style, v, ks[1..]) + "}" + r;
      FieldsHead(style, v, ks[1..]);
      assert tail[1..][0] == '\"';
      FieldsRoundTrip(style, v, ks[1..], acc[k := x], r);
      MergeStep(acc, m, ks);
    }
  }

  /** Both readers return exactly the value that was printed, in either style. */
  lemma PrintThenRead(style: Style, v: Value)
    requires Clean(v)
    ensures DecodeWhole(Print(style, v)) == Some(v)
    ensures DecodeFirst(Print(style, v)) == Some(v)
  {
    var p := Print(style, v);
    assert p + "" == p;
    ValueRoundTrip(style, v, "");
    PrintOpens(style, v);
  }

  /** Equal output bytes come from equal values. */
  lemma PrintInjective(style: Style, v: Value, w: Value)
    requires Clean(v) && Clean(w)
    requires Print(style, v) == Print(style, w)
    ensures v == w
  {
    PrintThenRead(style, v);
    PrintThenRead(style, w);
  }

}
