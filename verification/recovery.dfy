/** pkg/agent/session_recovery.go: tool calls left open by a killed process. */
module Recovery {
  import opened Json
  import opened GoStrings
  import opened History
  import opened Repair

  // ----- Quoting with %q -----

  /** What strconv.Quote knows about runes that are not ASCII: which ones print, and the escape of the
      others, after its backslash. */
  datatype Runes = Runes(printable: string -> bool, code: string -> string)

  /** Escapes hold no quote and are longer than what they stand for. */
  ghost predicate Quoting(g: Runes) {
    forall r: string :: '\"' !in g.code(r) && |g.code(r)| >= |r|
  }

  function EscapeSize(s: string): (n: nat)
    requires s != ""
    ensures 1 <= n <= |s|
  {
    if s[0] >= '\U{80}' && RuneSize(s) > 1 then RuneSize(s) else 1
  }

  predicate PlainHead(g: Runes, s: string)
    requires s != ""
  {
    if s[0] < '\U{80}' then ' ' <= s[0] <= '~' && s[0] != '\"' && s[0] != '\\'
    else RuneSize(s) > 1 && g.printable(s[..RuneSize(s)])
  }

  /** The text between the quotes of %q. */
  function QuoteBody(g: Runes, s: string): string
    decreases |s|
  {
    if s == "" then ""
    else
      var n := EscapeSize(s);
      (if PlainHead(g, s) then s[..n]
       else if s[0] == '\"' || s[0] == '\\' then ['\\', s[0]]
       else "\\" + g.code(s[..n]))
      + QuoteBody(g, s[n..])
  }

  /** An id that %q leaves as it is. */
  predicate Plain(g: Runes, s: string)
    decreases |s|
  {
    s == "" || (PlainHead(g, s) && Plain(g, s[EscapeSize(s)..]))
  }

  // ----- extractJSONStringField -----

  function Needle(key: string): string {
    "\"" + key + "\":\""
  }

  /** The first quote of s at or behind from, or the end of s. */
  function QuoteAt(s: string, from: nat): (r: nat)
    requires from <= |s|
    ensures from <= r <= |s| && (r < |s| ==> s[r] == '\"')
    ensures forall k | from <= k < r :: s[k] != '\"'
    decreases |s| - from
  {
    if from == |s| || s[from] == '\"' then from else QuoteAt(s, from + 1)
  }

  function FieldOf(s: string, key: string): string {
    var idx := Index(s, Needle(key));
    if idx < 0 then ""
    else
      var from := idx + |Needle(key)|;
      var end := QuoteAt(s, from);
      if end == |s| then "" else s[from..end]
  }

  method ExtractJSONStringField(s: string, key: string) returns (r: string)
    ensures r == FieldOf(s, key)
  {
    var needle := Needle(key);
    var idx := -1;
    var i := 0;
    while i <= |s| - |needle|
      invariant 0 <= i && idx == -1
      invariant forall k | 0 <= k < i :: !Occurs(s, needle, k)
      decreases |s| - i
    {
      if s[i..i + |needle|] == needle {
        idx := i + |needle|;
        break;
      }
      i := i + 1;
    }
    if idx < 0 {
      return "";
    }
    assert Occurs(s, needle, i) && Index(s, needle) == i;
    var end := EndOfText(s, idx);
    if end == |s| {
      return "";
    }
    r := s[idx..end];
  }

  /** The inner loop: to the next quote or the end. */
  method EndOfText(s: string, from: nat) returns (end: nat)
    requires from <= |s|
    ensures end == QuoteAt(s, from)
  {
    end := from;
    while end < |s| && s[end] != '\"'
      invariant from <= end <= |s|
      invariant QuoteAt(s, from) == QuoteAt(s, end)
    {
      end := end + 1;
    }
  }

  // ----- Reading a record back -----

  const KIND := "turn_canceled_restart"

  const FIELD := "tool_call_id"

  const FRONT := "{\"type\":\"turn_canceled_restart\","

  const BACK := ",\"reason\":\"ungraceful_shutdown_recovery\"}"

  /** The content of the record written for an orphaned call. */
  function RecordText(g: Runes, id: string): string {
    FRONT + Needle(FIELD) + QuoteBody(g, id) + "\"" + BACK
  }

  /** The field starts where the format puts it. */
  lemma FieldPlace(g: Runes, id: string)
    ensures Index(RecordText(g, id), Needle(FIELD)) == |FRONT|
  {
    hide QuoteBody, Index;
    var s, needle := RecordText(g, id), Needle(FIELD);
    var after := QuoteBody(g, id) + "\"" + BACK;
    assert s == FRONT + needle + after;
    assert needle == "\"tool_call_id\":\"";
    assert Occurs(s, needle, |FRONT|);
    forall k | 0 <= k < |FRONT| ensures !Occurs(s, needle, k) {
      NotInFront(s, after, k);
    }
  }

  lemma NotInFront(s: string, after: string, k: nat)
    requires s == FRONT + "\"tool_call_id\":\"" + after && k < |FRONT|
    ensures !Occurs(s, "\"tool_call_id\":\"", k)
  {
    OccursStart(s, "\"tool_call_id\":\"", k);
    assert s[k] == FRONT[k];
    assert k + 2 < |FRONT| ==> s[k + 1] == FRONT[k + 1] && s[k + 2] == FRONT[k + 2];
    assert FRONT[|FRONT| - 1] == ',' && FRONT[|FRONT| - 2] == '\"';
  }

  lemma OccursStart(s: string, sub: string, k: nat)
    requires |sub| > 2
    ensures Occurs(s, sub, k) ==> k + 2 < |s| && s[k] == sub[0] && s[k + 1] == sub[1] && s[k + 2] == sub[2]
  {
    if Occurs(s, sub, k) { assert s[k..k + |sub|][0] == s[k] && s[k..k + |sub|][1] == s[k + 1] && s[k..k + |sub|][2] == s[k + 2]; }
  }

  /** What is read back is the quoted id up to its first quote. */
  lemma RecordField(g: Runes, id: string)
    ensures '\"' !in QuoteBody(g, id) ==> FieldOf(RecordText(g, id), FIELD) == QuoteBody(g, id)
    ensures '\"' !in FieldOf(RecordText(g, id), FIELD)
  {
    hide QuoteBody, Index;
    FieldPlace(g, id);
    var s, q, from := RecordText(g, id), QuoteBody(g, id), |FRONT| + |Needle(FIELD)|;
    assert s == FRONT + Needle(FIELD) + q + "\"" + BACK;
    var end := QuoteAt(s, from);
    assert s[from + |q|] == '\"';
    assert forall k | from <= k < from + |q| :: s[k] == q[k - from];
    if '\"' !in q {
      assert s[from..from + |q|] == q;
    }
  }

  lemma {:induction false} PlainBody(g: Runes, s: string)
    requires Plain(g, s)
    ensures QuoteBody(g, s) == s && '\"' !in s
    decreases |s|
  {
    hide RuneSize, QuoteBody, PlainHead;
    BodyStep(g, s);
    if s != "" {
      var n := EscapeSize(s);
      PlainBody(g, s[n..]);
      PlainRune(g, s);
      assert s[..n] + s[n..] == s;
    }
  }

  lemma BodyStep(g: Runes, s: string)
    ensures QuoteBody(g, "") == ""
    ensures s != "" && PlainHead(g, s) ==> QuoteBody(g, s) == s[..EscapeSize(s)] + QuoteBody(g, s[EscapeSize(s)..])
  {
    hide RuneSize, PlainHead;
  }

  lemma PlainRune(g: Runes, s: string)
    requires s != "" && PlainHead(g, s)
    ensures '\"' !in s[..EscapeSize(s)]
  {
  }

  /** Escaping only ever makes a text longer, and leaves quotes out unless there were some. */
  lemma {:induction false} BodyLength(g: Runes, s: string)
    requires Quoting(g)
    ensures |QuoteBody(g, s)| >= |s|
    ensures |QuoteBody(g, s)| == |s| ==> Plain(g, s)
    ensures '\"' !in s ==> '\"' !in QuoteBody(g, s)
    decreases |s|
  {
    hide RuneSize, PlainHead;
    if s != "" {
      var n := EscapeSize(s);
      BodyLength(g, s[n..]);
      assert s == s[..n] + s[n..];
    }
  }

  /** An id is read back from its record exactly if %q does not change it. */
  lemma ReadBackExactly(g: Runes, id: string)
    requires Quoting(g)
    ensures FieldOf(RecordText(g, id), FIELD) == id <==> Plain(g, id)
  {
    hide QuoteBody, Plain, FieldOf, RecordText;
    RecordField(g, id);
    BodyLength(g, id);
    if Plain(g, id) {
      PlainBody(g, id);
    }
  }

  // ----- The functions of the file -----

  function LastAssistant(h: seq<Msg>): (i: int)
    ensures -1 <= i < |h|
    ensures i >= 0 ==> h[i].role.Assistant?
    ensures forall k | i < k < |h| :: !h[k].role.Assistant?
  {
    if h == [] then -1
    else if h[|h| - 1].role.Assistant? then |h| - 1
    else LastAssistant(h[..|h| - 1])
  }

  function Unresolved(calls: seq<Call>, resolved: set<string>): seq<Call> {
    if calls == [] then []
    else
      var n := |calls| - 1;
      Unresolved(calls[..n], resolved) + if calls[n].id in resolved then [] else [calls[n]]
  }

  /** The calls of the last assistant that no later message answers. */
  function Orphans(h: seq<Msg>): seq<Call> {
    var i := LastAssistant(h);
    if i < 0 then [] else Unresolved(h[i].calls, ResolvedIds(h[i + 1..]))
  }

  method FindOrphanedToolCalls(history: seq<Msg>) returns (orphans: seq<Call>)
    ensures orphans == Orphans(history)
  {
    hide ResolvedIds, LastAssistant;
    var last := |history| - 1;
    assert history[..|history|] == history;
    while last >= 0 && !history[last].role.Assistant?
      invariant -1 <= last < |history|
      invariant LastAssistant(history) == LastAssistant(history[..last + 1])
    {
      last := last - 1;
    }
    if last < 0 {
      return [];
    }
    var calls := history[last].calls;
    var resolved: set<string> := {};
    NoIdsAtAll();
    ghost var after := history[last + 1..];
    assert after[..0] == [];
    for i := last + 1 to |history|
      invariant resolved == ResolvedIds(after[..i - last - 1])
    {
      var msg := history[i];
      assert after[..i - last] == after[..i - last - 1] + [msg];
      IdsConcat(after[..i - last - 1], [msg]);
      IdsOne(msg);
      if msg.role.Tool? && msg.resultId != "" {
        resolved := resolved + {msg.resultId};
      }
    }
    assert after[..|history| - last - 1] == after;
    orphans := [];
    assert calls[..0] == [];
    for k := 0 to |calls|
      invariant orphans == Unresolved(calls[..k], resolved)
    {
      assert calls[..k + 1][..k] == calls[..k];
      if calls[k].id !in resolved {
        orphans := orphans + [calls[k]];
      }
    }
    assert calls[..|calls|] == calls;
  }

  function Stripped(h: seq<Msg>): seq<Msg> {
    var i := LastAssistant(h);
    if i >= 0 && h[i].calls != [] then h[..i] else h
  }

  method StripOrphanedAssistantTurn(history: seq<Msg>) returns (cleaned: seq<Msg>)
    ensures cleaned == Stripped(history)
  {
    hide LastAssistant;
    var i := |history| - 1;
    assert history[..|history|] == history;
    while i >= 0
      invariant -1 <= i < |history|
      invariant LastAssistant(history) == LastAssistant(history[..i + 1])
    {
      if history[i].role.Assistant? && |history[i].calls| > 0 {
        return history[..i];
      }
      if history[i].role.Assistant? {
        break;
      }
      i := i - 1;
    }
    cleaned := history;
  }

  predicate Contains(s: string, sub: string) {
    Index(s, sub) >= 0
  }

  /** A system message that reads as a record. */
  predicate IsRecordMsg(m: Msg) {
    m.role.System? && Contains(m.content, KIND) && Contains(m.content, FIELD) && FieldOf(m.content, FIELD) != ""
  }

  function Cancelled(h: seq<Msg>): set<string> {
    set m | m in h && IsRecordMsg(m) :: FieldOf(m.content, FIELD)
  }

  method ExistingCancelledToolCallIDs(history: seq<Msg>) returns (result: set<string>)
    ensures result == Cancelled(history)
  {
    hide FieldOf, Index;
    result := {};
    for i := 0 to |history|
      invariant result == Cancelled(history[..i])
    {
      var msg := history[i];
      assert history[..i + 1] == history[..i] + [msg];
      if msg.role.System? && |msg.content| > 0 && Contains(msg.content, KIND) && Contains(msg.content, FIELD) {
        var id := ExtractJSONStringField(msg.content, FIELD);
        if id != "" {
          result := result + {id};
        }
      }
    }
    assert history[..|history|] == history;
  }

  function Record(g: Runes, id: string): Msg {
    Msg(System, [], "", RecordText(g, id))
  }

  /** The records appended for these orphans. */
  function Records(g: Runes, orphans: seq<Call>, already: set<string>): seq<Msg> {
    if orphans == [] then []
    else
      var n := |orphans| - 1;
      Records(g, orphans[..n], already) + if orphans[n].id in already then [] else [Record(g, orphans[n].id)]
  }

  /** What a call appends to the store. */
  function Appended(g: Runes, h: seq<Msg>): seq<Msg> {
    Records(g, Orphans(h), Cancelled(h))
  }

  /** What a call returns. */
  function Recovered(h: seq<Msg>): seq<Msg> {
    if Orphans(h) == [] then h else Stripped(h)
  }

  /** An appending session store. */
  class Store {
    var history: seq<Msg>

    constructor (history: seq<Msg>)
      ensures this.history == history
    {
      this.history := history;
    }

    method AddMessage(m: Msg)
      modifies this
      ensures history == old(history) + [m]
    {
      history := history + [m];
    }
  }

  method RecoverOrphanedToolCalls(g: Runes, store: Store) returns (cleaned: seq<Msg>)
    modifies store
    ensures cleaned == Recovered(old(store.history))
    ensures store.history == old(store.history) + Appended(g, old(store.history))
  {
    hide Orphans, Cancelled, Stripped, Record;
    var history := store.history;
    NothingAppended(g, history);
    assert history + [] == history;
    if |history| == 0 {
      return history;
    }
    var orphans := FindOrphanedToolCalls(history);
    if |orphans| == 0 {
      return history;
    }
    var already := ExistingCancelledToolCallIDs(history);
    assert orphans[..0] == [];
    for k := 0 to |orphans|
      invariant store.history == history + Records(g, orphans[..k], already)
    {
      assert orphans[..k + 1][..k] == orphans[..k];
      if orphans[k].id in already {
        continue;
      }
      store.AddMessage(Record(g, orphans[k].id));
    }
    assert orphans[..|orphans|] == orphans;
    cleaned := StripOrphanedAssistantTurn(history);
  }

  lemma NothingAppended(g: Runes, h: seq<Msg>)
    ensures Orphans(h) == [] ==> Appended(g, h) == []
    ensures h == [] ==> Orphans(h) == []
  {
  }

  /** rs are the records of the calls at the picked places: those neither resolved nor recorded already, in
      the order of the calls. */
  ghost predicate Picks(g: Runes, calls: seq<Call>, resolved: set<string>, already: set<string>, picked: seq<nat>, rs: seq<Msg>) {
    && |picked| == |rs|
    && (forall j, k | 0 <= j < k < |picked| :: picked[j] < picked[k])
    && (forall k | 0 <= k < |picked| :: picked[k] < |calls| && rs[k] == Record(g, calls[picked[k]].id))
    && forall x: nat | x < |calls| :: x in picked <==> calls[x].id !in resolved && calls[x].id !in already
  }

  lemma PicksSkip(g: Runes, calls: seq<Call>, resolved: set<string>, already: set<string>, picked: seq<nat>, rs: seq<Msg>, c: Call)
    requires Picks(g, calls, resolved, already, picked, rs) && (c.id in resolved || c.id in already)
    ensures Picks(g, calls + [c], resolved, already, picked, rs)
  {
    hide Record;
    assert |calls| !in picked by { assert forall k | 0 <= k < |picked| :: picked[k] != |calls|; }
  }

  lemma PicksTake(g: Runes, calls: seq<Call>, resolved: set<string>, already: set<string>, picked: seq<nat>, rs: seq<Msg>, c: Call)
    requires Picks(g, calls, resolved, already, picked, rs) && c.id !in resolved && c.id !in already
    ensures Picks(g, calls + [c], resolved, already, picked + [|calls|], rs + [Record(g, c.id)])
  {
    hide Record;
    var n := |calls|;
    forall x: nat | x < n + 1 ensures x in picked + [n] <==> x == n || x in picked {
      assert picked + [n] == picked + [n] && (picked + [n])[|picked|] == n;
    }
  }

  lemma RecordsSnoc(g: Runes, orphans: seq<Call>, already: set<string>, c: Call)
    ensures Records(g, orphans + [c], already) == Records(g, orphans, already) + if c.id in already then [] else [Record(g, c.id)]
  {
    hide Record;
    assert (orphans + [c])[..|orphans|] == orphans;
  }

  lemma {:induction false} PickedCalls(g: Runes, calls: seq<Call>, resolved: set<string>, already: set<string>)
    returns (picked: seq<nat>)
    ensures Picks(g, calls, resolved, already, picked, Records(g, Unresolved(calls, resolved), already))
    decreases |calls|
  {
    hide Record, Picks;
    if calls == [] {
      picked := [];
      NothingPicked(g, resolved, already);
    } else {
      var n := |calls| - 1;
      var front, c := calls[..n], calls[n];
      assert calls == front + [c];
      picked := PickedCalls(g, front, resolved, already);
      var open := Unresolved(front, resolved);
      var rs := Records(g, open, already);
      RecordsSnoc(g, open, already, c);
      assert open + [] == open && rs + [] == rs;
      if c.id in resolved || c.id in already {
        PicksSkip(g, front, resolved, already, picked, rs, c);
      } else {
        PicksTake(g, front, resolved, already, picked, rs, c);
        picked := picked + [n];
      }
    }
  }

  lemma NothingPicked(g: Runes, resolved: set<string>, already: set<string>)
    ensures Picks(g, [], resolved, already, [], Records(g, Unresolved([], resolved), already))
  {
  }

  /** The records written are, in the order of the calls, one for each call of the last assistant that no
      tool message behind it answers and no earlier record names. */
  lemma OneRecordEach(g: Runes, h: seq<Msg>) returns (picked: seq<nat>)
    ensures var last, rs := LastAssistant(h), Appended(g, h);
            if last < 0 then rs == []
            else
              |picked| == |rs|
              && (forall j, k | 0 <= j < k < |picked| :: picked[j] < picked[k])
              && (forall k | 0 <= k < |picked| :: picked[k] < |h[last].calls| && rs[k] == Record(g, h[last].calls[picked[k]].id))
              && forall x: nat | x < |h[last].calls| :: x in picked <==> Unrecorded(h, last, h[last].calls[x].id)
  {
    hide Cancelled, Record, LastAssistant, ResolvedIds, Unrecorded, Appended, Unresolved, Records;
    picked := [];
    var last := LastAssistant(h);
    AppendedIs(g, h, last);
    if last >= 0 {
      var calls := h[last].calls;
      picked := PickedCalls(g, calls, ResolvedIds(h[last + 1..]), Cancelled(h));
      forall x: nat | x < |calls| ensures x in picked <==> Unrecorded(h, last, calls[x].id) {
        AnsweredBehind(h, last, calls[x].id);
      }
    }
  }

  lemma AppendedIs(g: Runes, h: seq<Msg>, last: int)
    requires last == LastAssistant(h)
    ensures Appended(g, h) == if last < 0 then [] else Records(g, Unresolved(h[last].calls, ResolvedIds(h[last + 1..])), Cancelled(h))
  {
    hide Cancelled, Record, LastAssistant, ResolvedIds, Unresolved;
  }

  predicate Unrecorded(h: seq<Msg>, last: nat, id: string)
    requires last < |h|
  {
    (forall m | m in h[last + 1..] && m.role.Tool? :: m.resultId != id || id == "") && id !in Cancelled(h)
  }

  lemma AnsweredBehind(h: seq<Msg>, last: nat, id: string)
    requires last < |h|
    ensures Unrecorded(h, last, id) <==> id !in ResolvedIds(h[last + 1..]) && id !in Cancelled(h)
  {
    hide Cancelled;
  }

  // ----- Once is enough -----

  lemma {:induction false} RecordsHas(g: Runes, orphans: seq<Call>, already: set<string>, c: Call)
    requires c in orphans && c.id !in already
    ensures Record(g, c.id) in Records(g, orphans, already)
    decreases |orphans|
  {
    hide Record;
    var n := |orphans| - 1;
    assert orphans == orphans[..n] + [orphans[n]];
    if c in orphans[..n] { RecordsHas(g, orphans[..n], already, c); }
  }

  lemma {:induction false} RecordsNone(g: Runes, orphans: seq<Call>, already: set<string>)
    ensures Records(g, orphans, already) == [] <==> forall c | c in orphans :: c.id in already
    decreases |orphans|
  {
    hide Record;
    if orphans != [] {
      var n := |orphans| - 1;
      assert orphans == orphans[..n] + [orphans[n]];
      RecordsNone(g, orphans[..n], already);
    }
  }

  lemma {:induction false} RecordsSystem(g: Runes, orphans: seq<Call>, already: set<string>)
    ensures forall m | m in Records(g, orphans, already) :: m.role.System?
    decreases |orphans|
  {
    hide RecordText;
    if orphans != [] { RecordsSystem(g, orphans[..|orphans| - 1], already); }
  }

  lemma SystemResolvesNothing(more: seq<Msg>)
    requires forall m | m in more :: m.role.System?
    ensures ResolvedIds(more) == {}
  {
  }

  /** The records do not change what the functions see. */
  lemma SameAfterwards(g: Runes, h: seq<Msg>)
    ensures Orphans(h + Appended(g, h)) == Orphans(h)
    ensures Orphans(h) != [] ==> Recovered(h + Appended(g, h)) == Recovered(h)
  {
    hide ResolvedIds, LastAssistant, Records, Unresolved, Cancelled;
    var more := Appended(g, h);
    RecordsSystem(g, Orphans(h), Cancelled(h));
    var i := LastAssistant(h);
    if i >= 0 {
      assert (h + more)[i] == h[i] && (h + more)[i + 1..] == h[i + 1..] + more && (h + more)[..i] == h[..i];
      IdsConcat(h[i + 1..], more);
      SystemResolvesNothing(more);
      assert ResolvedIds(h[i + 1..]) + {} == ResolvedIds(h[i + 1..]);
      UnresolvedAre(h[i].calls, ResolvedIds(h[i + 1..]));
    }
  }

  /** The result is always a beginning of the history: without the last assistant turn, if that turn
      has an unanswered call, and the whole history if not. */
  lemma RecoveredPrefix(h: seq<Msg>)
    ensures Recovered(h) <= h
    ensures var i := LastAssistant(h);
            if i >= 0 && exists c | c in h[i].calls :: c.id !in ResolvedIds(h[i + 1..]) then Recovered(h) == h[..i]
            else Recovered(h) == h
  {
    hide ResolvedIds, LastAssistant, Unresolved;
    var i := LastAssistant(h);
    if i >= 0 { UnresolvedAre(h[i].calls, ResolvedIds(h[i + 1..])); }
  }

  lemma {:induction false} UnresolvedAre(calls: seq<Call>, resolved: set<string>)
    ensures forall c :: c in Unresolved(calls, resolved) <==> c in calls && c.id !in resolved
    ensures Unresolved(calls, resolved) == [] <==> forall c | c in calls :: c.id in resolved
    decreases |calls|
  {
    if calls != [] {
      var n := |calls| - 1;
      assert calls == calls[..n] + [calls[n]];
      UnresolvedAre(calls[..n], resolved);
    }
  }

  lemma CancelledConcat(a: seq<Msg>, b: seq<Msg>)
    ensures Cancelled(a + b) == Cancelled(a) + Cancelled(b)
  {
    hide IsRecordMsg, FieldOf;
  }

  lemma RecordReads(g: Runes, id: string)
    requires Quoting(g)
    ensures Contains(Record(g, id).content, KIND) && Contains(Record(g, id).content, FIELD)
    ensures FieldOf(Record(g, id).content, FIELD) == id <==> Plain(g, id)
  {
    hide FieldOf, Plain, Contains, RecordText;
    ReadBackExactly(g, id);
    RecordParts(QuoteBody(g, id));
    RecordIs(g, id);
  }

  function RecordAround(q: string): string {
    FRONT + Needle(FIELD) + q + "\"" + BACK
  }

  lemma RecordIs(g: Runes, id: string)
    ensures RecordText(g, id) == RecordAround(QuoteBody(g, id))
  {
    hide QuoteBody;
  }

  lemma FrontHasKind()
    ensures Occurs(FRONT, KIND, 9)
  {
    assert FRONT == "{\"type\":\"" + KIND + "\",";
  }

  lemma OccursWithin(a: string, s: string, b: string, sub: string, k: nat)
    requires Occurs(s, sub, k)
    ensures Contains(a + s + b, sub)
  {
    var t := a + s + b;
    assert t[|a| + k..|a| + k + |sub|] == s[k..k + |sub|];
    assert Occurs(t, sub, |a| + k);
  }

  lemma RecordParts(q: string)
    ensures Contains(RecordAround(q), KIND) && Contains(RecordAround(q), FIELD)
  {
    hide Contains, Occurs;
    var rest := q + "\"" + BACK;
    FrontHasKind();
    OccursWithin("", FRONT, Needle(FIELD) + rest, KIND, 9);
    OccursWithin(FRONT, Needle(FIELD), rest, FIELD, 1);
    Rejoin(FRONT, Needle(FIELD), q, "\"", BACK);
  }

  lemma Rejoin(a: string, b: string, c: string, d: string, e: string)
    ensures a + b + c + d + e == a + b + (c + d + e) && a + b + c + d + e == "" + a + (b + (c + d + e))
  {
  }

  /** After one call, a second one returns the same prefix. */
  lemma RecoveryIdempotent(g: Runes, h: seq<Msg>)
    ensures Recovered(h + Appended(g, h)) == Recovered(h)
  {
    hide Orphans, Records, Cancelled, Recovered;
    SameAfterwards(g, h);
    NothingAppended(g, h);
    assert h + [] == h;
  }

  /** Main result: and it appends nothing exactly if no unanswered call that had no record before has an
      id that is empty or changed by %q. */
  lemma RecoveryExactly(g: Runes, h: seq<Msg>)
    requires Quoting(g)
    ensures Appended(g, h + Appended(g, h)) == [] <==> forall c | Recorded(h, c) :: c.id != "" && Plain(g, c.id)
  {
    hide Recorded, Covered, Plain, Appended;
    SecondCall(g, h);
    if forall c | Recorded(h, c) :: c.id != "" && Plain(g, c.id) {
      forall c | Recorded(h, c) ensures Covered(g, h, c) { PlainCovered(g, h, c); }
    }
    if forall c | Recorded(h, c) :: Covered(g, h, c) {
      forall c | Recorded(h, c) ensures c.id != "" && Plain(g, c.id) { CoveredPlain(g, h, c); }
    }
  }

  /** The first call appends a record for c. */
  predicate Recorded(h: seq<Msg>, c: Call) {
    c in Orphans(h) && c.id !in Cancelled(h)
  }

  /** A record that the first call appends reads as one for c. */
  ghost predicate Covered(g: Runes, h: seq<Msg>, c: Call) {
    c.id != "" && exists d :: Recorded(h, d) && FieldOf(RecordText(g, d.id), FIELD) == c.id
  }

  /** The second call appends nothing exactly if every record of the first finds its call covered. */
  lemma SecondCall(g: Runes, h: seq<Msg>)
    requires Quoting(g)
    ensures Appended(g, h + Appended(g, h)) == [] <==> forall c | Recorded(h, c) :: Covered(g, h, c)
  {
    hide Record, RecordText, FieldOf, Orphans, IsRecordMsg, Records, Cancelled;
    var more := Appended(g, h);
    SameAfterwards(g, h);
    CancelledConcat(h, more);
    RecordsNone(g, Orphans(h), Cancelled(h + more));
    forall c | Recorded(h, c) ensures c.id in Cancelled(more) <==> Covered(g, h, c) {
      AppendedCancels(g, h, c);
    }
  }

  lemma AppendedCancels(g: Runes, h: seq<Msg>, c: Call)
    requires Quoting(g) && Recorded(h, c)
    ensures c.id in Cancelled(Appended(g, h)) <==> Covered(g, h, c)
  {
    hide RecordText, FieldOf, Orphans, Contains, Records;
    var more := Appended(g, h);
    if c.id in Cancelled(more) {
      var m :| m in more && IsRecordMsg(m) && FieldOf(m.content, FIELD) == c.id;
      var d := RecordsFrom(g, Orphans(h), Cancelled(h), m);
      assert Recorded(h, d) && FieldOf(RecordText(g, d.id), FIELD) == c.id;
    }
    if Covered(g, h, c) {
      var d :| Recorded(h, d) && FieldOf(RecordText(g, d.id), FIELD) == c.id;
      RecordsHas(g, Orphans(h), Cancelled(h), d);
      RecordReads(g, d.id);
      CancelledHas(more, Record(g, d.id));
    }
  }

  lemma {:induction false} RecordsFrom(g: Runes, orphans: seq<Call>, already: set<string>, m: Msg) returns (d: Call)
    requires m in Records(g, orphans, already)
    ensures d in orphans && d.id !in already && m == Record(g, d.id)
    decreases |orphans|
  {
    hide RecordText;
    var n := |orphans| - 1;
    if orphans[n].id !in already && m == Record(g, orphans[n].id) {
      d := orphans[n];
    } else {
      d := RecordsFrom(g, orphans[..n], already, m);
    }
  }

  lemma PlainCovered(g: Runes, h: seq<Msg>, c: Call)
    requires Quoting(g) && Recorded(h, c) && c.id != "" && Plain(g, c.id)
    ensures Covered(g, h, c)
  {
    hide FieldOf, Plain, RecordText, Recorded;
    ReadBackExactly(g, c.id);
  }

  /** If all are covered, an id that %q changes would need a shorter one of the same kind to cover it. */
  lemma {:induction false} CoveredPlain(g: Runes, h: seq<Msg>, c: Call)
    requires Quoting(g) && Recorded(h, c) && forall d | Recorded(h, d) :: Covered(g, h, d)
    ensures c.id != "" && Plain(g, c.id)
    decreases |c.id|
  {
    hide Covered, Plain, Recorded, QuoteBody;
    var d := CoveredBy(g, h, c);
    BodyLength(g, d.id);
    if |d.id| < |c.id| { CoveredPlain(g, h, d); }
    PlainBody(g, d.id);
  }

  /** What covers c reads as c with its whole quoted id: it is covered itself, so it holds no quote. */
  lemma CoveredBy(g: Runes, h: seq<Msg>, c: Call) returns (d: Call)
    requires Quoting(g) && Covered(g, h, c) && forall d | Recorded(h, d) :: Covered(g, h, d)
    ensures c.id != "" && Recorded(h, d) && QuoteBody(g, d.id) == c.id
  {
    hide FieldOf, Plain, RecordText, Recorded, QuoteBody;
    d :| Recorded(h, d) && FieldOf(RecordText(g, d.id), FIELD) == c.id;
    assert Covered(g, h, d);
    var e :| Recorded(h, e) && FieldOf(RecordText(g, e.id), FIELD) == d.id;
    RecordField(g, e.id);
    BodyLength(g, d.id);
    RecordField(g, d.id);
  }

  lemma CancelledHas(h: seq<Msg>, m: Msg)
    requires m in h && IsRecordMsg(m)
    ensures FieldOf(m.content, FIELD) in Cancelled(h)
  {
    hide FieldOf, IsRecordMsg;
  }

  /** A call without an id is recorded again by every call, for ever. */
  lemma EmptyIdRepeats(g: Runes, h: seq<Msg>, c: Call)
    requires c in Orphans(h) && c.id == ""
    ensures Appended(g, h + Appended(g, h)) != []
  {
    hide Record, Orphans, Records, Cancelled;
    var h' := h + Appended(g, h);
    SameAfterwards(g, h);
    EmptyNeverCancelled(h');
    RecordsNone(g, Orphans(h), Cancelled(h'));
  }

  lemma EmptyNeverCancelled(h: seq<Msg>)
    ensures "" !in Cancelled(h)
  {
  }
}
