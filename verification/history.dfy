/** Conversation messages as the providers see them, and their grouping into turns. */
module History {
  datatype Role = System | User | Assistant | Tool | Other

  datatype Call = Call(id: string, name: string, args: string)

  /** calls belongs to assistants, resultId to tool messages. */
  datatype Msg = Msg(role: Role, calls: seq<Call>, resultId: string, content: string)

  predicate Calling(m: Msg) {
    m.role.Assistant? && m.calls != []
  }

  predicate AllTools(ms: seq<Msg>) {
    forall m | m in ms :: m.role.Tool?
  }

  /** The number of tool messages at the head of ms. */
  function RunLength(ms: seq<Msg>): (n: nat)
    ensures n <= |ms|
  {
    if ms == [] || !ms[0].role.Tool? then 0 else 1 + RunLength(ms[1..])
  }

  function Answers(rs: seq<Msg>): set<string> {
    set r | r in rs :: r.resultId
  }

  /** Every call of a is answered in rs. */
  predicate Complete(a: Msg, rs: seq<Msg>) {
    forall c | c in a.calls :: c.id in Answers(rs)
  }

  // ----- Pairing, on messages alone -----

  /** Message j is in the tool run right after message i. */
  predicate InRunOf(ms: seq<Msg>, i: nat, j: nat) {
    i < j < |ms| && forall k | i < k <= j :: ms[k].role.Tool?
  }

  /** Every call of every assistant is answered in the tool run right after it. */
  ghost predicate Answered(ms: seq<Msg>) {
    forall i | 0 <= i < |ms| && ms[i].role.Assistant? ::
      forall c | c in ms[i].calls :: exists j: nat :: InRunOf(ms, i, j) && ms[j].resultId == c.id
  }

  /** Every tool message is in the run of a calling assistant. */
  ghost predicate Owned(ms: seq<Msg>) {
    forall j | 0 <= j < |ms| && ms[j].role.Tool? :: exists i: nat :: i < |ms| && Calling(ms[i]) && InRunOf(ms, i, j)
  }

  predicate Declares(m: Msg, id: string) {
    exists c | c in m.calls :: c.id == id
  }

  /** Every tool message is in the run of an assistant that made the call it answers. */
  ghost predicate Declared(ms: seq<Msg>) {
    forall j | 0 <= j < |ms| && ms[j].role.Tool? ::
      exists i: nat :: i < |ms| && Calling(ms[i]) && Declares(ms[i], ms[j].resultId) && InRunOf(ms, i, j)
  }

  // ----- Turns -----

  /** A message on its own, or a calling assistant with the tool run after it. */
  datatype Block = Single(msg: Msg) | Turn(call: Msg, results: seq<Msg>)

  function Unblock(b: Block): seq<Msg> {
    match b
    case Single(m) => [m]
    case Turn(a, rs) => [a] + rs
  }

  function Flatten(bs: seq<Block>): seq<Msg> {
    if bs == [] then [] else Unblock(bs[0]) + Flatten(bs[1..])
  }

  predicate WellFormed(b: Block) {
    match b
    case Single(m) => !m.role.Tool? && !Calling(m)
    case Turn(a, rs) => Calling(a) && AllTools(rs)
  }

  predicate AllWellFormed(bs: seq<Block>) {
    forall b | b in bs :: WellFormed(b)
  }

  lemma {:induction false} FlattenConcat(a: seq<Block>, b: seq<Block>)
    ensures Flatten(a + b) == Flatten(a) + Flatten(b)
    decreases |a|
  {
    if a == [] {
      assert a + b == b;
    } else {
      assert (a + b)[0] == a[0] && (a + b)[1..] == a[1..] + b;
      FlattenConcat(a[1..], b);
      assert Unblock(a[0]) + (Flatten(a[1..]) + Flatten(b)) == Unblock(a[0]) + Flatten(a[1..]) + Flatten(b);
    }
  }

  lemma FlattenSnoc(bs: seq<Block>, b: Block)
    ensures Flatten(bs + [b]) == Flatten(bs) + Unblock(b)
  {
    FlattenConcat(bs, [b]);
    assert [b][1..] == [] && Unblock(b) + [] == Unblock(b);
  }

  /** Where block k begins. */
  ghost function Start(bs: seq<Block>, k: nat): nat
    requires k <= |bs|
  {
    |Flatten(bs[..k])|
  }

  lemma SplitAt(bs: seq<Block>, k: nat)
    requires k < |bs|
    ensures Flatten(bs[..k + 1]) == Flatten(bs[..k]) + Unblock(bs[k])
    ensures Flatten(bs) == Flatten(bs[..k]) + Unblock(bs[k]) + Flatten(bs[k + 1..])
  {
    hide Flatten, Unblock;
    SliceAt(bs, k);
    FlattenThree(bs[..k], bs[k], bs[k + 1..]);
  }

  lemma SliceAt<T>(s: seq<T>, k: nat)
    requires k < |s|
    ensures s[..k + 1] == s[..k] + [s[k]]
    ensures s[..k] + [s[k]] + s[k + 1..] == s
  {
  }

  lemma FlattenThree(a: seq<Block>, b: Block, c: seq<Block>)
    ensures Flatten(a + [b]) == Flatten(a) + Unblock(b)
    ensures Flatten(a + [b] + c) == Flatten(a) + Unblock(b) + Flatten(c)
  {
    hide Flatten, Unblock;
    FlattenSnoc(a, b);
    FlattenConcat(a + [b], c);
  }

  lemma BlockAt(bs: seq<Block>, k: nat)
    requires k < |bs|
    ensures Start(bs, k) + |Unblock(bs[k])| == Start(bs, k + 1) <= |Flatten(bs)|
    ensures forall x | 0 <= x < |Unblock(bs[k])| :: Flatten(bs)[Start(bs, k) + x] == Unblock(bs[k])[x]
  {
    hide Flatten, Unblock;
    SplitAt(bs, k);
  }

  lemma FlattenCons(bs: seq<Block>)
    requires bs != []
    ensures Flatten(bs) == Unblock(bs[0]) + Flatten(bs[1..])
  {
  }

  lemma StartCons(bs: seq<Block>, k: nat)
    requires 0 < k <= |bs|
    ensures Start(bs, k) == |Unblock(bs[0])| + Start(bs[1..], k - 1)
    ensures Start(bs, 0) == 0
  {
    hide Unblock;
    assert bs[..k][0] == bs[0] && bs[..k][1..] == bs[1..][..k - 1] && bs[..0] == [];
  }

  /** Every message is in some block. */
  lemma {:induction false} BlockOf(bs: seq<Block>, p: nat) returns (k: nat, x: nat)
    requires p < |Flatten(bs)|
    ensures k < |bs| && x < |Unblock(bs[k])| && p == Start(bs, k) + x
    decreases |bs|
  {
    hide Flatten, Unblock, Start;
    FlattenEmpty();
    FlattenCons(bs);
    if p < |Unblock(bs[0])| {
      k, x := 0, p;
      StartCons(bs, 1);
    } else {
      var k', x' := BlockOf(bs[1..], p - |Unblock(bs[0])|);
      k, x := k' + 1, x';
      StartCons(bs, k);
      assert bs[1..][k'] == bs[k];
    }
  }

  lemma FlattenEmpty()
    ensures Flatten([]) == []
  {
  }

  /** Well-formed grouping is unique. */
  lemma {:induction false} FlattenInjective(a: seq<Block>, b: seq<Block>)
    requires AllWellFormed(a) && AllWellFormed(b) && Flatten(a) == Flatten(b)
    ensures a == b
    decreases |a|
  {
    hide WellFormed;
    assert (a != [] ==> Flatten(a) != []) && (b != [] ==> Flatten(b) != []);
    if a != [] {
      SameHead(a, b);
      assert forall x | x in a[1..] :: x in a;
      assert forall x | x in b[1..] :: x in b;
      FlattenInjective(a[1..], b[1..]);
      assert a == [a[0]] + a[1..] && b == [b[0]] + b[1..];
    }
  }

  lemma {:induction false} RunPrefix(rs: seq<Msg>, rest: seq<Msg>)
    requires AllTools(rs) && (rest != [] ==> !rest[0].role.Tool?)
    ensures RunLength(rs + rest) == |rs|
    decreases |rs|
  {
    if rs == [] {
      assert rs + rest == rest;
    } else {
      assert (rs + rest)[0] == rs[0] && rs[0] in rs && (rs + rest)[1..] == rs[1..] + rest;
      assert forall m | m in rs[1..] :: m in rs;
      RunPrefix(rs[1..], rest);
    }
  }

  lemma HeadNotTool(bs: seq<Block>)
    requires AllWellFormed(bs)
    ensures Flatten(bs) != [] ==> !Flatten(bs)[0].role.Tool?
  {
    if bs != [] { assert bs[0] in bs; }
  }

  lemma RunOfBlocks(bs: seq<Block>)
    requires AllWellFormed(bs) && bs != []
    ensures bs[0].Turn? ==> Flatten(bs) == [bs[0].call] + (bs[0].results + Flatten(bs[1..]))
                            && RunLength(Flatten(bs)[1..]) == |bs[0].results|
    ensures Flatten(bs)[|Unblock(bs[0])|..] == Flatten(bs[1..])
  {
    hide Flatten, AllTools, RunLength;
    assert forall x | x in bs[1..] :: x in bs;
    assert WellFormed(bs[0]);
    FlattenCons(bs);
    HeadNotTool(bs[1..]);
    if bs[0].Turn? {
      RunPrefix(bs[0].results, Flatten(bs[1..]));
      TurnThen(bs[0].call, bs[0].results, Flatten(bs[1..]));
    }
  }

  lemma TurnThen(a: Msg, rs: seq<Msg>, rest: seq<Msg>)
    ensures [a] + rs + rest == [a] + (rs + rest) && ([a] + rs + rest)[1..] == rs + rest
  {
  }

  lemma SameHead(a: seq<Block>, b: seq<Block>)
    requires AllWellFormed(a) && AllWellFormed(b) && a != [] && b != [] && Flatten(a) == Flatten(b)
    ensures a[0] == b[0] && Flatten(a[1..]) == Flatten(b[1..])
  {
    hide AllTools, RunLength;
    RunOfBlocks(a);
    RunOfBlocks(b);
    assert a[0] in a && b[0] in b;
    assert Flatten(a)[0] == Unblock(a[0])[0] && Flatten(b)[0] == Unblock(b[0])[0];
    if a[0].Turn? {
      assert a[0].results == Flatten(a)[1..][..|a[0].results|];
      assert b[0].results == Flatten(b)[1..][..|b[0].results|];
    }
  }

  // ----- Pairing, on blocks -----

  predicate TurnsComplete(bs: seq<Block>) {
    forall b | b in bs && b.Turn? :: Complete(b.call, b.results)
  }

  predicate TurnsDeclare(bs: seq<Block>) {
    forall b | b in bs && b.Turn? :: forall r | r in b.results :: Declares(b.call, r.resultId)
  }

  /** The messages after the call of block k are its results, up to the next block. */
  lemma TurnRun(bs: seq<Block>, k: nat, j: nat)
    requires AllWellFormed(bs) && k < |bs| && bs[k].Turn?
    ensures Start(bs, k) + 1 + |bs[k].results| == Start(bs, k + 1) <= |Flatten(bs)|
    ensures Flatten(bs)[Start(bs, k)] == bs[k].call
    ensures InRunOf(Flatten(bs), Start(bs, k), j)
            <==> Start(bs, k) < j < Start(bs, k + 1)
    ensures Start(bs, k) < j < Start(bs, k + 1) ==>
              Flatten(bs)[j] == bs[k].results[j - Start(bs, k) - 1]
  {
    hide Flatten, AllTools;
    var ms, s, e := Flatten(bs), Start(bs, k), Start(bs, k + 1);
    assert WellFormed(bs[k]);
    BlockAt(bs, k);
    assert ms[s + 0] == Unblock(bs[k])[0] == bs[k].call;
    forall p | s < p < e ensures ms[p] == bs[k].results[p - s - 1] && ms[p].role.Tool? {
      assert ms[s + (p - s)] == Unblock(bs[k])[p - s];
      ToolAt(bs[k].results, p - s - 1);
    }
    if e < |ms| {
      assert bs == bs[..k + 1] + bs[k + 1..];
      FlattenConcat(bs[..k + 1], bs[k + 1..]);
      assert forall x | x in bs[k + 1..] :: x in bs;
      HeadNotTool(bs[k + 1..]);
      assert ms[e] == Flatten(bs[k + 1..])[0];
    }
  }

  lemma ToolAt(rs: seq<Msg>, i: nat)
    requires AllTools(rs) && i < |rs|
    ensures rs[i].role.Tool?
  {
  }

  lemma AnsweredBlocks(bs: seq<Block>)
    requires AllWellFormed(bs)
    ensures Answered(Flatten(bs)) <==> TurnsComplete(bs)
  {
    hide Flatten, AllTools, Start, Complete;
    var ms := Flatten(bs);
    if TurnsComplete(bs) {
      forall i | 0 <= i < |ms| && ms[i].role.Assistant?
        ensures forall c | c in ms[i].calls :: exists j: nat :: InRunOf(ms, i, j) && ms[j].resultId == c.id
      {
        forall c | c in ms[i].calls ensures exists j: nat :: InRunOf(ms, i, j) && ms[j].resultId == c.id {
          var j := AnswerAt(bs, i, c);
        }
      }
    }
    if Answered(ms) {
      forall b | b in bs && b.Turn? ensures Complete(b.call, b.results) {
        var k :| 0 <= k < |bs| && bs[k] == b;
        TurnAnswered(bs, k);
      }
    }
  }

  lemma AnswerAt(bs: seq<Block>, i: nat, c: Call) returns (j: nat)
    requires AllWellFormed(bs) && TurnsComplete(bs)
    requires i < |Flatten(bs)| && Flatten(bs)[i].role.Assistant? && c in Flatten(bs)[i].calls
    ensures InRunOf(Flatten(bs), i, j) && Flatten(bs)[j].resultId == c.id
  {
    hide Flatten, AllTools, Start;
    var ms := Flatten(bs);
    var k, x := BlockOf(bs, i);
    BlockAt(bs, k);
    assert ms[Start(bs, k) + x] == Unblock(bs[k])[x] && WellFormed(bs[k]);
    CallerFirst(bs[k], x);
    assert Complete(bs[k].call, bs[k].results);
    var r :| r in bs[k].results && r.resultId == c.id;
    var y :| 0 <= y < |bs[k].results| && bs[k].results[y] == r;
    j := i + 1 + y;
    TurnRun(bs, k, j);
  }

  lemma TurnAnswered(bs: seq<Block>, k: nat)
    requires AllWellFormed(bs) && Answered(Flatten(bs)) && k < |bs| && bs[k].Turn?
    ensures Complete(bs[k].call, bs[k].results)
  {
    hide Flatten, AllTools, Start;
    var ms := Flatten(bs);
    TurnRun(bs, k, 0);
    assert WellFormed(bs[k]);
    var i := Start(bs, k);
    forall c | c in bs[k].call.calls ensures c.id in Answers(bs[k].results) {
      var j: nat :| InRunOf(ms, i, j) && ms[j].resultId == c.id;
      TurnRun(bs, k, j);
      assert bs[k].results[j - i - 1] in bs[k].results;
    }
  }

  lemma CallerFirst(b: Block, x: nat)
    requires WellFormed(b) && x < |Unblock(b)|
    ensures Unblock(b)[x].role.Assistant? && Unblock(b)[x].calls != [] ==> b.Turn? && x == 0
    ensures Unblock(b)[x].role.Tool? ==> b.Turn? && x > 0
  {
  }

  lemma OwnedBlocks(bs: seq<Block>)
    requires AllWellFormed(bs)
    ensures Owned(Flatten(bs))
    ensures Declared(Flatten(bs)) <==> TurnsDeclare(bs)
  {
    hide Flatten, AllTools, Start, Declares;
    var ms := Flatten(bs);
    forall j | 0 <= j < |ms| && ms[j].role.Tool?
      ensures exists i: nat :: i < |ms| && Calling(ms[i]) && InRunOf(ms, i, j)
      ensures TurnsDeclare(bs) ==>
                exists i: nat :: i < |ms| && Calling(ms[i]) && Declares(ms[i], ms[j].resultId) && InRunOf(ms, i, j)
    {
      var k, x := BlockOf(bs, j);
      BlockAt(bs, k);
      assert ms[Start(bs, k) + x] == Unblock(bs[k])[x] && WellFormed(bs[k]);
      CallerFirst(bs[k], x);
      TurnRun(bs, k, j);
      assert bs[k].results[x - 1] in bs[k].results;
    }
    if Declared(ms) {
      forall k, r | 0 <= k < |bs| && bs[k].Turn? && r in bs[k].results ensures Declares(bs[k].call, r.resultId) {
        var y :| 0 <= y < |bs[k].results| && bs[k].results[y] == r;
        var j := Start(bs, k) + 1 + y;
        BlockAt(bs, k);
        TurnRun(bs, k, j);
        var i: nat :| i < |ms| && Calling(ms[i]) && Declares(ms[i], ms[j].resultId) && InRunOf(ms, i, j);
        assert ms[Start(bs, k)] == bs[k].call && WellFormed(bs[k]);
      }
    }
  }

}
