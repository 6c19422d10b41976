/** evals/judge/scorer.go: finding the judge's JSON object and validating its scores. */
module Scorer {
  import opened Json
  import opened Braces
  import opened GoStrings

  // ----- extractJSON -----

  predicate FirstBrace(s: string, start: int) {
    0 <= start < |s| && s[start] == '{' && '{' !in s[..start]
  }

  /** No beginning of t of up to n bytes is balanced. */
  ghost predicate Open(t: string, n: int) {
    forall k | 0 < k <= n && k <= |t| :: Run(OUTSIDE, t[..k]).depth > 0
  }

  /** t is balanced and none of its proper, non-empty beginnings is; only braces outside strings count. */
  ghost predicate Shortest(t: string) {
    t != "" && Run(OUTSIDE, t).depth == 0 && Open(t, |t| - 1)
  }

  /** What extractJSON promises when the text holds no code fence. */
  ghost predicate Extracted(s: string, r: Option<string>) {
    match r
    case Some(t) => exists start :: FirstBrace(s, start) && t <= s[start..] && Shortest(t)
    case None => forall start | FirstBrace(s, start) :: Open(s[start..], |s| - start)
  }

  /** The scanner has read s[start..i], is in state st and has not closed the object yet. */
  ghost predicate Reading(s: string, start: int, i: int, st: Scan) {
    && FirstBrace(s, start) && start <= i <= |s|
    && Run(OUTSIDE, s[start..][..i - start]) == st && Open(s[start..], i - start)
    && (i > start ==> st.depth > 0)
  }

  function IndexBrace(s: string): (start: int)
    ensures start == -1 || FirstBrace(s, start)
    ensures start == -1 ==> forall k :: !FirstBrace(s, k)
  {
    IndexOfByte(s, '{');
    Index(s, "{")
  }

  /** extractJSON.  The code-fence regular expression is an input: the text of its group, if it matches. */
  method ExtractJSON(s: string, fence: Option<string>) returns (r: Option<string>)
    ensures fence.Some? ==> r == Some(TrimSpace(fence.value))
    ensures fence.None? ==> Extracted(s, r)
  {
    if fence.Some? {
      return Some(TrimSpace(fence.value));
    }
    var start := IndexBrace(s);
    if start == -1 {
      return None;
    }
    var depth, inStr, escaped := 0, false, false;
    hide Run, IndexBrace, Extracted, FirstBrace, Reading;
    var i := start;
    while i < |s|
      invariant start <= i <= |s|
      invariant Reading(s, start, i, Scan(depth, inStr, escaped))
    {
      var ch := s[i];
      ghost var before := Scan(depth, inStr, escaped);
      var closed := false;
      if escaped {
        escaped := false;
      } else {
        match ch {
          case '\\' => if inStr { escaped := true; }
          case '\"' => inStr := !inStr;
          case '{' => if !inStr { depth := depth + 1; }
          case '}' => if !inStr { depth := depth - 1; closed := depth == 0; }
          case _ =>
        }
      }
      assert Scan(depth, inStr, escaped) == Next(before, ch);
      i := i + 1;
      if closed {
        Found(s, start, i, before);
        return Some(s[start..i]);
      }
      ReadingStep(s, start, i, before);
    }
    r := None;
  }

  lemma ReadingStep(s: string, start: int, i: int, st: Scan)
    requires 0 < i <= |s| && Reading(s, start, i - 1, st)
    requires !(s[i - 1] == '}' && Next(st, '}').depth == 0 && st.depth == 1)
    ensures Reading(s, start, i, Next(st, s[i - 1]))
  {
    hide Run;
    RunStart();
    RunSnoc(s[start..], i - 1 - start);
  }

  lemma RunStart()
    ensures Run(OUTSIDE, "") == OUTSIDE
  {
  }

  lemma Found(s: string, start: int, i: int, st: Scan)
    requires 0 < i <= |s| && Reading(s, start, i - 1, st) && Next(st, s[i - 1]).depth == 0
    ensures Extracted(s, Some(s[start..i]))
  {
    hide Run;
    var t := s[start..];
    var r := s[start..i];
    RunSnoc(t, i - 1 - start);
    assert r == t[..i - start];
    assert forall k | 0 < k < i - start :: r[..k] == t[..k];
  }

  lemma IndexOfByte(s: string, c: char)
    ensures Index(s, [c]) >= 0 ==> s[Index(s, [c])] == c && c !in s[..Index(s, [c])]
    ensures Index(s, [c]) < 0 ==> c !in s
  {
    forall k | 0 <= k < |s| ensures s[k] == c ==> Occurs(s, [c], k) {
      assert s[k..k + 1] == [s[k]];
    }
  }

  lemma RunSnoc(t: string, i: nat)
    requires i < |t|
    ensures Run(OUTSIDE, t[..i + 1]) == Next(Run(OUTSIDE, t[..i]), t[i])
  {
    assert t[..i + 1] == t[..i] + [t[i]];
    Concat(OUTSIDE, t[..i], [t[i]], 0);
    RunOne(Run(OUTSIDE, t[..i]), t[i]);
  }

  /** Between its braces an object never returns to depth zero. */
  lemma BodyStaysDeep(body: string, n: nat)
    requires Moves(At(1), body, At(1)) && n <= |body|
    ensures Run(OUTSIDE, "{" + body[..n]).depth > 0
  {
    var front, back := body[..n], body[n..];
    assert body == front + back;
    RunOne(OUTSIDE, '{');
    Concat(OUTSIDE, "{", front, 0);
    Concat(At(1), front, back, 1);
  }

  lemma MovesEnd(st: Scan, s: string, st': Scan)
    requires Moves(st, s, st')
    ensures Run(st, s) == st'
  {
  }

  lemma BracedShortest(body: string)
    requires Moves(At(1), body, At(1))
    ensures Shortest("{" + body + "}")
  {
    hide Run, Moves;
    var c := "{" + body + "}";
    BracesAround(body, 0);
    MovesEnd(OUTSIDE, c, At(0));
    forall n | 0 < n < |c| ensures Run(OUTSIDE, c[..n]).depth > 0 {
      assert c[..n] == "{" + body[..n - 1];
      BodyStaysDeep(body, n - 1);
    }
  }

  /** An object at the head of a text is the text's shortest balanced beginning. */
  lemma ObjectShortest(t: string, r: string)
    requires ParseValue(t).Some? && ParseValue(t).value.1 == r && t[0] == '{'
    ensures |r| <= |t| && Shortest(t[..|t| - |r|])
  {
    hide ParseValue, Shortest, Moves;
    var body := ObjectRead(t, 0);
    var c := "{" + body + "}";
    BracedShortest(body);
    assert t == c + r && t[..|t| - |r|] == c;
  }

  /** Any JSON object text, after any text without an opening brace and before any other text, is
      what extractJSON returns when there is no code fence. */
  lemma ExtractsObject(pre: string, t: string, post: string, r: Option<string>)
    requires '{' !in pre
    requires ParseValue(t).Some? && ParseValue(t).value.0.Obj? && ParseValue(t).value.1 == ""
    requires Extracted(pre + t + post, r)
    ensures r == Some(t)
  {
    hide ParseValue, Run;
    var s := pre + t + post;
    var start := |pre|;
    ObjectFirst(t);
    ObjectShortest(t, "");
    assert t[..|t|] == t;
    assert FirstBrace(s, start) by { assert s[start] == t[0] && s[..start] == pre; }
    assert s[start..][..|t|] == t;
    if r.Some? {
      ShortestUnique(r.value, t, s[start..]);
    }
  }

  lemma ObjectFirst(t: string)
    requires ParseValue(t).Some? && ParseValue(t).value.0.Obj?
    ensures t[0] == '{'
  {
    hide ParseString, ParseItems, ParseFields, ScanNumber;
  }

  lemma ShortestUnique(a: string, b: string, s: string)
    requires Shortest(a) && Shortest(b) && a <= s && b <= s
    ensures a == b
  {
    hide Run;
    var n := if |a| < |b| then |a| else |b|;
    assert a[..n] == s[..n] == b[..n];
    assert a[..|a|] == a && b[..|b|] == b;
  }

  lemma CutObject(t: string, p: string)
    requires ParseValue(t).Some? && ParseValue(t).value.0.Obj? && ParseValue(t).value.1 == ""
    requires p <= t && |p| < |t| && p != ""
    ensures ParseValue(p) == None
  {
    hide ParseValue, Shortest;
    ObjectFirst(t);
    if ParseValue(p).Some? {
      var r := ParseValue(p).value.1;
      ObjectShortest(p, r);
      ObjectShortest(t, "");
      assert t[..|t|] == t;
      ShortestUnique(p[..|p| - |r|], t, t);
    }
  }

  /** A text cut short inside an object is not a JSON document. */
  lemma CutObjectUnreadable(t: string, p: string)
    requires ParseValue(t).Some? && ParseValue(t).value.0.Obj? && ParseValue(t).value.1 == ""
    requires p <= t && |p| < |t|
    ensures DecodeWhole(p) == None && DecodeFirst(p) == None
  {
    ObjectFirst(t);
    assert ParseValue("") == None;
    hide ParseValue;
    if p != "" {
      CutObject(t, p);
      assert p[0] == '{';
    }
  }
}
