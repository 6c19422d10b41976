/** argshash.go's canonical encoder over one shared buffer, and hmac.go's canonicalMarshal. */
module Encoder {
  import opened Json
  import opened Canonical
  import RoundTrip

  /** bytes.Buffer, as far as it is used here. */
  class Buffer {
    var bytes: string

    constructor ()
      ensures bytes == ""
    {
      bytes := "";
    }

    method Write(s: string)
      modifies this
      ensures bytes == old(bytes) + s
    {
      bytes := bytes + s;
    }
  }

  // ----- writeJSONString -----

  /** The text written for s[..i] is what precedes the text of s[i..]. */
  ghost predicate Written(before: string, s: string, i: int, now: string) {
    0 <= i <= |s| && now + Escape(ArgsHash, s[i..]) == before + Escape(ArgsHash, s)
    && (ValidUtf8(s) <==> ValidUtf8(s[i..]))
  }

  lemma WrittenStart(before: string, s: string)
    ensures Written(before, s, 0, before)
  {
    assert s[0..] == s;
  }

  lemma WrittenStep(before: string, s: string, i: nat, now: string, n: nat, piece: string)
    requires Written(before, s, i, now) && i < |s|
    requires n == RuneSize(s[i..]) > 0 && piece == EscapeHead(ArgsHash, s[i..])
    ensures Written(before, s, i + n, now + piece)
  {
    hide EscapeHead, RuneSize;
    assert s[i..][n..] == s[i + n..];
  }

  lemma WrittenEnd(before: string, s: string, now: string)
    requires Written(before, s, |s|, now)
    ensures now == before + Escape(ArgsHash, s) && ValidUtf8(s)
  {
    assert s[|s|..] == "";
    assert Escape(ArgsHash, "") == "";
  }

  lemma WrittenBad(before: string, s: string, i: nat, now: string)
    requires Written(before, s, i, now) && i < |s| && RuneSize(s[i..]) == 0
    ensures !ValidUtf8(s)
  {
  }

  method WriteJSONString(buf: Buffer, s: string) returns (ok: bool)
    modifies buf
    ensures ok <==> ValidUtf8(s)
    ensures ok ==> buf.bytes == old(buf.bytes) + Quote(ArgsHash, s)
  {
    hide Escape, EscapeHead, ValidUtf8, RuneSize, Written;
    buf.Write("\"");
    ghost var before := buf.bytes;
    WrittenStart(before, s);
    var i := 0;
    while i < |s|
      invariant 0 <= i <= |s| && Written(before, s, i, buf.bytes)
    {
      var c := s[i];
      var piece, n := "", 1;
      if c < '\U{80}' {
        piece := AsciiPiece(s, i);
      } else {
        n := RuneSize(s[i..]);
        if n == 0 {
          WrittenBad(before, s, i, buf.bytes);
          return false;
        }
        piece := s[i..i + n];
        RuneVerbatim(s, i);
      }
      WrittenStep(before, s, i, buf.bytes, n, piece);
      buf.Write(piece);
      i := i + n;
    }
    WrittenEnd(before, s, buf.bytes);
    buf.Write("\"");
    assert buf.bytes == old(buf.bytes) + Quote(ArgsHash, s);
    ok := true;
  }

  /** The switch of writeJSONString on an ASCII byte. */
  method AsciiPiece(s: string, i: int) returns (piece: string)
    requires 0 <= i < |s| && s[i] < '\U{80}'
    ensures piece == EscapeHead(ArgsHash, s[i..]) && RuneSize(s[i..]) == 1
  {
    var c := s[i];
    match c {
      case '\"' => piece := "\\\"";
      case '\\' => piece := "\\\\";
      case '\U{8}' => piece := "\\b";
      case '\U{C}' => piece := "\\f";
      case '\n' => piece := "\\n";
      case '\r' => piece := "\\r";
      case '\t' => piece := "\\t";
      case _ =>
        if c < ' ' {
          piece := "\\u00" + [HexDigit(c as int / 16), HexDigit(c as int % 16)];
        } else {
          piece := [c];
        }
    }
  }

  lemma RuneVerbatim(s: string, i: int)
    requires 0 <= i < |s| && s[i] >= '\U{80}' && RuneSize(s[i..]) > 0
    ensures s[i..i + RuneSize(s[i..])] == EscapeHead(ArgsHash, s[i..])
  {
  }

  // ----- Maps -----

  /** The keys of a map in iteration order, which Go leaves open. */
  method MapKeys(m: map<string, Value>) returns (keys: seq<string>)
    ensures KeySet(keys) == m.Keys
    ensures forall i, j | 0 <= i < j < |keys| :: keys[i] != keys[j]
  {
    keys := [];
    var todo := m.Keys;
    while todo != {}
      invariant KeySet(keys) + todo == m.Keys && KeySet(keys) !! todo
      invariant forall i, j | 0 <= i < j < |keys| :: keys[i] != keys[j]
      decreases todo
    {
      var k :| k in todo;
      assert forall i | 0 <= i < |keys| :: keys[i] in KeySet(keys);
      keys := keys + [k];
      todo := todo - {k};
    }
  }

  /** sort.Strings on distinct keys. */
  method SortStrings(keys: seq<string>) returns (r: seq<string>)
    requires forall i, j | 0 <= i < j < |keys| :: keys[i] != keys[j]
    ensures Increasing(r) && KeySet(r) == KeySet(keys)
  {
    hide Leq, Insert;
    r := [];
    for i := 0 to |keys|
      invariant Increasing(r) && KeySet(r) == KeySet(keys[..i])
    {
      assert keys[i] !in keys[..i];
      assert keys[i] !in KeySet(r);
      InsertIncreasing(keys[i], r);
      r := Insert(keys[i], r);
      assert keys[..i + 1] == keys[..i] + [keys[i]];
    }
    assert keys[..|keys|] == keys;
  }

  method SortedMapKeys(m: map<string, Value>) returns (keys: seq<string>)
    ensures keys == SortedKeys(m.Keys)
    ensures forall k :: k in keys <==> k in m
  {
    var any := MapKeys(m);
    keys := SortStrings(any);
    IncreasingUnique(keys, SortedKeys(m.Keys));
    assert forall k :: k in keys <==> k in KeySet(keys);
  }

  // ----- canonicalEncode -----

  /** Values whose strings and keys are all UTF-8: the ones canonicalEncode accepts.  Numbers are
      written verbatim, whatever their text. */
  ghost predicate Encodable(v: Value) {
    match v
    case Str(s) => ValidUtf8(s)
    case Arr(xs) => forall x | x in xs :: Encodable(x)
    case Obj(m) => forall k | k in m :: ValidUtf8(k) && Encodable(m[k])
    case _ => true
  }

  method CanonicalEncode(buf: Buffer, v: Value) returns (ok: bool)
    modifies buf
    ensures ok <==> Encodable(v)
    ensures ok ==> buf.bytes == old(buf.bytes) + Print(ArgsHash, v)
    decreases v, 1
  {
    hide PrintFields, PrintItems, Quote;
    match v {
      case Null =>
        buf.Write("null");
        ok := true;
      case Bool(b) =>
        if b { buf.Write("true"); } else { buf.Write("false"); }
        ok := true;
      case Num(text) =>
        buf.Write(text);
        ok := true;
      case Str(s) =>
        ok := WriteJSONString(buf, s);
      case Arr(xs) =>
        ok := WriteArray(buf, xs);
      case Obj(m) =>
        ok := WriteMap(buf, v);
    }
  }

  /** What is on the buffer once the first i of n elements are written: rest is the text of the others. */
  ghost predicate Pending(before: string, whole: string, i: int, n: int, rest: string, now: string) {
    now + (if 0 < i < n then "," + rest else rest) == before + whole
  }

  method WriteArray(buf: Buffer, xs: seq<Value>) returns (ok: bool)
    modifies buf
    ensures ok <==> forall x | x in xs :: Encodable(x)
    ensures ok ==> buf.bytes == old(buf.bytes) + ("[" + PrintItems(ArgsHash, xs) + "]")
    decreases xs, 0
  {
    hide Print, PrintItems, Encodable, Pending;
    buf.Write("[");
    ghost var before := buf.bytes;
    ItemsStart(ArgsHash, before, xs);
    for i := 0 to |xs|
      invariant Pending(before, PrintItems(ArgsHash, xs), i, |xs|, PrintItems(ArgsHash, xs[i..]), buf.bytes)
      invariant forall k | 0 <= k < i :: Encodable(xs[k])
    {
      ghost var now := buf.bytes;
      if i > 0 {
        buf.Write(",");
      }
      var good := CanonicalEncode(buf, xs[i]);
      if !good {
        return false;
      }
      ItemsStep(ArgsHash, before, xs, i, now, buf.bytes);
    }
    ItemsEnd(ArgsHash, before, xs, buf.bytes);
    buf.Write("]");
    ok := true;
  }

  lemma PendingStep(before: string, whole: string, i: nat, n: nat, first: string, tail: string, now: string)
    requires i < n && (i + 1 == n ==> tail == "")
    requires Pending(before, whole, i, n, first + (if i + 1 == n then "" else "," + tail), now)
    ensures Pending(before, whole, i + 1, n, tail, now + (if i > 0 then "," else "") + first)
  {
    var next := now + (if i > 0 then "," else "") + first;
    var rest := if i + 1 == n then "" else "," + tail;
    assert next + rest == now + (if i > 0 then "," + (first + rest) else first + rest);
  }

  lemma ItemsStart(style: Style, before: string, xs: seq<Value>)
    ensures Pending(before, PrintItems(style, xs), 0, |xs|, PrintItems(style, xs[0..]), before)
  {
    assert xs[0..] == xs;
  }

  lemma ItemsStep(style: Style, before: string, xs: seq<Value>, i: nat, now: string, next: string)
    requires i < |xs|
    requires Pending(before, PrintItems(style, xs), i, |xs|, PrintItems(style, xs[i..]), now)
    requires next == now + (if i > 0 then "," else "") + Print(style, xs[i])
    ensures Pending(before, PrintItems(style, xs), i + 1, |xs|, PrintItems(style, xs[i + 1..]), next)
  {
    hide Print, Pending;
    var ys := xs[i..];
    assert ys[0] == xs[i] && ys[1..] == xs[i + 1..];
    var first, tail := Print(style, xs[i]), PrintItems(style, xs[i + 1..]);
    assert PrintItems(style, ys) == first + (if i + 1 == |xs| then "" else "," + tail);
    PendingStep(before, PrintItems(style, xs), i, |xs|, first, tail, now);
  }

  lemma ItemsEnd(style: Style, before: string, xs: seq<Value>, now: string)
    requires Pending(before, PrintItems(style, xs), |xs|, |xs|, PrintItems(style, xs[|xs|..]), now)
    ensures now == before + PrintItems(style, xs)
  {
    assert xs[|xs|..] == [];
    assert PrintItems(style, []) == "";
  }

  method WriteMap(buf: Buffer, v: Value) returns (ok: bool)
    requires v.Obj?
    modifies buf
    ensures ok <==> Encodable(v)
    ensures ok ==> buf.bytes == old(buf.bytes) + Print(ArgsHash, v)
    decreases v, 0
  {
    hide Print, PrintFields, Encodable, Pending, Increasing, KeySet, ValidUtf8, Quote, SortedKeys;
    var m := v.fields;
    var keys := SortedMapKeys(m);
    buf.Write("{");
    ghost var before := buf.bytes;
    FieldsStart(before, v, keys);
    for i := 0 to |keys|
      invariant Pending(before, PrintFields(ArgsHash, v, keys), i, |keys|, PrintFields(ArgsHash, v, keys[i..]), buf.bytes)
      invariant forall j | 0 <= j < i :: ValidUtf8(keys[j]) && Encodable(m[keys[j]])
    {
      ghost var now := buf.bytes;
      var k := keys[i];
      if i > 0 {
        buf.Write(",");
      }
      var keyOk := WriteJSONString(buf, k);
      if !keyOk {
        NotEncodable(v, k);
        return false;
      }
      buf.Write(":");
      var valueOk := CanonicalEncode(buf, m[k]);
      if !valueOk {
        NotEncodable(v, k);
        return false;
      }
      FieldsStep(ArgsHash, before, v, keys, i, now, buf.bytes);
    }
    FieldsEnd(ArgsHash, before, v, keys, buf.bytes);
    buf.Write("}");
    FieldsEncodable(v, keys);
    assert buf.bytes == old(buf.bytes) + Print(ArgsHash, v) by { PrintObject(ArgsHash, v); }
    ok := true;
  }

  lemma FieldsEncodable(v: Value, keys: seq<string>)
    requires v.Obj? && KeySet(keys) == v.fields.Keys
    requires forall j | 0 <= j < |keys| :: keys[j] in v.fields && ValidUtf8(keys[j]) && Encodable(v.fields[keys[j]])
    ensures Encodable(v)
  {
    assert forall k | k in v.fields :: k in KeySet(keys);
  }

  lemma PrintObject(style: Style, v: Value)
    requires v.Obj?
    ensures forall k | k in SortedKeys(v.fields.Keys) :: k in v.fields
    ensures Print(style, v) == "{" + PrintFields(style, v, SortedKeys(v.fields.Keys)) + "}"
  {
    hide PrintFields;
    var ks := SortedKeys(v.fields.Keys);
    assert forall k | k in ks :: k in KeySet(ks);
  }

  lemma NotEncodable(v: Value, k: string)
    requires v.Obj? && k in v.fields && (!ValidUtf8(k) || !Encodable(v.fields[k]))
    ensures !Encodable(v)
  {
  }

  lemma FieldsStart(before: string, v: Value, ks: seq<string>)
    requires v.Obj? && forall k | k in ks :: k in v.fields
    ensures forall style :: Pending(before, PrintFields(style, v, ks), 0, |ks|, PrintFields(style, v, ks[0..]), before)
  {
    assert ks[0..] == ks;
  }

  lemma FieldsStep(style: Style, before: string, v: Value, ks: seq<string>, i: nat, now: string, next: string)
    requires v.Obj? && i < |ks| && forall k | k in ks :: k in v.fields
    requires Pending(before, PrintFields(style, v, ks), i, |ks|, PrintFields(style, v, ks[i..]), now)
    requires next == now + (if i > 0 then "," else "") + Quote(style, ks[i]) + ":" + Print(style, v.fields[ks[i]])
    ensures Pending(before, PrintFields(style, v, ks), i + 1, |ks|, PrintFields(style, v, ks[i + 1..]), next)
  {
    hide Print, Quote, Pending;
    var js := ks[i..];
    assert js[0] == ks[i] && js[1..] == ks[i + 1..];
    var first, tail := PrintField(style, ks[i], v.fields[ks[i]]), PrintFields(style, v, ks[i + 1..]);
    assert PrintFields(style, v, js) == first + (if i + 1 == |ks| then "" else "," + tail);
    PendingStep(before, PrintFields(style, v, ks), i, |ks|, first, tail, now);
    assert next == now + (if i > 0 then "," else "") + first;
  }

  lemma FieldsEnd(style: Style, before: string, v: Value, ks: seq<string>, now: string)
    requires v.Obj? && forall k | k in ks :: k in v.fields
    requires Pending(before, PrintFields(style, v, ks), |ks|, |ks|, PrintFields(style, v, ks[|ks|..]), now)
    ensures now == before + PrintFields(style, v, ks)
  {
    assert ks[|ks|..] == [];
    assert PrintFields(style, v, []) == "";
  }

  // ----- canonicalMarshal -----

  /** hmac.go's printer; strings and numbers go through encoding/json. */
  method CanonicalMarshal(v: Value) returns (out: string)
    ensures out == Print(GoMarshal, v)
    decreases v, 1
  {
    hide PrintFields, PrintItems, Quote;
    match v {
      case Null => out := "null";
      case Bool(b) => out := if b then "true" else "false";
      case Num(text) => out := text;
      case Str(s) => out := Quote(GoMarshal, s);
      case Arr(xs) => out := MarshalArray(xs);
      case Obj(m) => out := MarshalMap(v);
    }
  }

  method MarshalArray(xs: seq<Value>) returns (out: string)
    ensures out == "[" + PrintItems(GoMarshal, xs) + "]"
    decreases xs, 0
  {
    hide Print, PrintItems, Pending;
    out := "[";
    ItemsStart(GoMarshal, out, xs);
    for i := 0 to |xs|
      invariant Pending("[", PrintItems(GoMarshal, xs), i, |xs|, PrintItems(GoMarshal, xs[i..]), out)
    {
      ghost var now := out;
      if i > 0 {
        out := out + ",";
      }
      var item := CanonicalMarshal(xs[i]);
      out := out + item;
      ItemsStep(GoMarshal, "[", xs, i, now, out);
    }
    ItemsEnd(GoMarshal, "[", xs, out);
    out := out + "]";
  }

  method MarshalMap(v: Value) returns (out: string)
    requires v.Obj?
    ensures out == Print(GoMarshal, v)
    decreases v, 0
  {
    hide Print, PrintFields, Pending, Increasing, KeySet, Quote;
    var m := v.fields;
    var keys := SortedMapKeys(m);
    out := "{";
    FieldsStart(out, v, keys);
    for i := 0 to |keys|
      invariant Pending("{", PrintFields(GoMarshal, v, keys), i, |keys|, PrintFields(GoMarshal, v, keys[i..]), out)
    {
      ghost var now := out;
      if i > 0 {
        out := out + ",";
      }
      var item := CanonicalMarshal(m[keys[i]]);
      out := out + Quote(GoMarshal, keys[i]) + ":" + item;
      FieldsStep(GoMarshal, "{", v, keys, i, now, out);
    }
    FieldsEnd(GoMarshal, "{", v, keys, out);
    out := out + "}";
    PrintObject(GoMarshal, v);
  }

  // ----- ArgsHash and the preview -----

  /** ArgsHash, with SHA-256 as a parameter: None where the encoder refuses the value. */
  method ArgsHashOf(sha: string -> string, v: Value) returns (r: Option<string>)
    ensures r.Some? <==> Encodable(v)
    ensures r.Some? ==> r == Some(sha(Print(ArgsHash, v)))
  {
    hide Print, Encodable;
    var buf := new Buffer();
    var ok := CanonicalEncode(buf, v);
    if !ok {
      return None;
    }
    assert buf.bytes == Print(ArgsHash, v);
    r := Some(sha(buf.bytes));
  }

  /** Values with one ArgsHash are the same, unless SHA-256 collides on their two texts. */
  lemma ArgsHashPins(sha: string -> string, v: Value, w: Value)
    requires Clean(v) && Clean(w) && sha(Print(ArgsHash, v)) == sha(Print(ArgsHash, w))
    ensures v == w || Print(ArgsHash, v) != Print(ArgsHash, w)
  {
    hide Print;
    if Print(ArgsHash, v) == Print(ArgsHash, w) { RoundTrip.PrintInjective(ArgsHash, v, w); }
  }

  predicate RuneStart(c: char) {
    !Continues(c)
  }

  /** truncate: s up to its last rune start at or before maxLen, and an ellipsis. */
  method Truncate(s: string, maxLen: nat) returns (r: string)
    ensures |s| <= maxLen ==> r == s
    ensures |s| > maxLen ==> exists cut: nat :: cut <= maxLen && r == s[..cut] + "\U{E2}\U{80}\U{A6}"
                               && (cut == 0 || RuneStart(s[cut])) && (forall k | cut < k <= maxLen :: !RuneStart(s[k]))
                               && (ValidUtf8(s) ==> ValidUtf8(s[..cut]) && maxLen - 3 <= cut)
  {
    if |s| <= maxLen {
      return s;
    }
    var cut := maxLen;
    while cut > 0 && !RuneStart(s[cut])
      invariant 0 <= cut <= maxLen
      invariant forall k | cut < k <= maxLen :: !RuneStart(s[k])
    {
      cut := cut - 1;
    }
    if ValidUtf8(s) {
      CutAtRune(s, cut);
      var near := RuneStartNear(s, maxLen);
    }
    r := s[..cut] + "\U{E2}\U{80}\U{A6}";
  }

  lemma RuneOfFront(s: string, cut: nat)
    requires s != "" && 0 < RuneSize(s) <= cut <= |s|
    ensures RuneSize(s[..cut]) == RuneSize(s)
  {
  }

  lemma RuneStartsHere(s: string)
    requires s != "" && RuneSize(s) > 0
    ensures RuneStart(s[0])
  {
  }

  lemma {:induction false} CutAtRune(s: string, cut: nat)
    requires ValidUtf8(s) && cut < |s| && (cut == 0 || RuneStart(s[cut]))
    ensures ValidUtf8(s[..cut])
    decreases |s|
  {
    hide RuneSize;
    var n := RuneSize(s);
    if cut != 0 {
      assert cut >= n;
      if cut == n {
        assert s[..cut][n..] == "";
      } else {
        assert s[n..][cut - n] == s[cut];
        CutAtRune(s[n..], cut - n);
        assert s[n..][..cut - n] == s[..cut][n..];
      }
      RuneOfFront(s, cut);
    }
  }

  /** In a UTF-8 string a rune starts at every position or at most three bytes before it. */
  lemma {:induction false} RuneStartNear(s: string, at: nat) returns (k: nat)
    requires ValidUtf8(s) && at < |s|
    ensures at - 3 <= k <= at && RuneStart(s[k])
    decreases |s|
  {
    hide RuneSize;
    var n := RuneSize(s);
    if at < n {
      k := 0;
      RuneStartsHere(s);
    } else {
      var j := RuneStartNear(s[n..], at - n);
      assert s[n..][j] == s[j + n];
      k := j + n;
    }
  }
}
