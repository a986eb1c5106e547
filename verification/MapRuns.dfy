/** Whole lives of a map, from creation to destruction, against a plain mathematical map. */
module MapRuns {
  import opened Options
  import opened HashTable
  import opened HashMap

  datatype Op = PutOp(key: Ptr, val: Ptr) | GetOp(name: string) | RemoveOp(name: string)

  datatype Answer = Done | Value(val: Option<Ptr>) | Found(found: bool)

  /** What an operation does to a mathematical map, and what it answers. */
  function Apply(m: map<string, Pair>, op: Op, text: Ptr -> string): (map<string, Pair>, Answer) {
    match op
    case PutOp(key, val) => (m[text(key) := Pair(key, val)], Done)
    case GetOp(name) => (m, Value(if name in m then Some(m[name].val) else None))
    case RemoveOp(name) => (m - {name}, Found(name in m))
  }

  function After(ops: seq<Op>, text: Ptr -> string): map<string, Pair> {
    if ops == [] then map[] else Apply(After(ops[..|ops| - 1], text), ops[|ops| - 1], text).0
  }

  function Answers(ops: seq<Op>, text: Ptr -> string): seq<Answer> {
    if ops == [] then []
    else Answers(ops[..|ops| - 1], text) + [Apply(After(ops[..|ops| - 1], text), ops[|ops| - 1], text).1]
  }

  /** The pairs that change hands: those given to the map by put operations. */
  function PairsPut(ops: seq<Op>): multiset<Pair> {
    if ops == [] then multiset{}
    else PairsPut(ops[..|ops| - 1]) + Put1(ops[|ops| - 1])
  }

  function Put1(op: Op): multiset<Pair> {
    if op.PutOp? then multiset{Pair(op.key, op.val)} else multiset{}
  }

  // ---------------------------------------------------------------- the last write wins

  predicate Touches(op: Op, name: string, text: Ptr -> string) {
    match op
    case PutOp(key, _) => text(key) == name
    case GetOp(_) => false
    case RemoveOp(other) => other == name
  }

  /** Operation `j` is the last before `k` that puts or removes the name. */
  ghost predicate LastTouch(ops: seq<Op>, text: Ptr -> string, name: string, j: nat, k: nat) {
    && j < k <= |ops| && Touches(ops[j], name, text)
    && forall i | j < i < k :: !Touches(ops[i], name, text)
  }

  ghost predicate NeverTouched(ops: seq<Op>, text: Ptr -> string, name: string, k: nat) {
    k <= |ops| && forall i | 0 <= i < k :: !Touches(ops[i], name, text)
  }

  /** The pair stored under the name, or none, is that of operation `j`. */
  ghost predicate StoredBy(m: map<string, Pair>, name: string, op: Op) {
    match op
    case PutOp(key, val) => name in m && m[name] == Pair(key, val)
    case _ => name !in m
  }

  ghost predicate StoredLast(ops: seq<Op>, text: Ptr -> string, name: string, k: nat, j: nat) {
    LastTouch(ops, text, name, j, k) ==> StoredBy(After(ops[..k], text), name, ops[j])
  }

  /** What is stored under a name after `k` operations: the pair of the last one that put it, unless it was removed. */
  lemma {:induction false} StoredIsLast(ops: seq<Op>, text: Ptr -> string, name: string, k: nat)
    requires k <= |ops|
    ensures NeverTouched(ops, text, name, k) ==> name !in After(ops[..k], text)
    ensures forall j: nat :: StoredLast(ops, text, name, k, j)
  {
    if k > 0 {
      var m := k - 1;
      StoredIsLast(ops, text, name, m);
      OneMore(ops, m, text);
      OneTouch(After(ops[..m], text), ops[m], name, text);
      assert NeverTouched(ops, text, name, k) ==> NeverTouched(ops, text, name, m);
      forall j: nat ensures StoredLast(ops, text, name, k, j) {
        assert StoredLast(ops, text, name, m, j);
        StoredStep(ops, text, name, m, k, j);
      }
    }
  }

  lemma StoredStep(ops: seq<Op>, text: Ptr -> string, name: string, m: nat, k: nat, j: nat)
    requires k == m + 1 <= |ops| && StoredLast(ops, text, name, m, j)
    requires After(ops[..k], text) == Apply(After(ops[..m], text), ops[m], text).0
    ensures StoredLast(ops, text, name, k, j)
  {
    OneTouch(After(ops[..m], text), ops[m], name, text);
    assert LastTouch(ops, text, name, j, k) && j < m ==> LastTouch(ops, text, name, j, m);
  }

  lemma OneTouch(m: map<string, Pair>, op: Op, name: string, text: Ptr -> string)
    ensures Touches(op, name, text) ==> StoredBy(Apply(m, op, text).0, name, op)
    ensures !Touches(op, name, text) ==> (name in Apply(m, op, text).0 <==> name in m)
    ensures !Touches(op, name, text) && name in m ==> Apply(m, op, text).0[name] == m[name]
  {
  }

  lemma {:induction false} SomeTouch(ops: seq<Op>, text: Ptr -> string, name: string, k: nat)
    requires k <= |ops| && !NeverTouched(ops, text, name, k)
    ensures exists j: nat :: LastTouch(ops, text, name, j, k)
  {
    if k > 0 {
      var m := k - 1;
      if Touches(ops[m], name, text) {
        assert LastTouch(ops, text, name, m, k);
      } else {
        SomeTouch(ops, text, name, m);
        var j: nat :| LastTouch(ops, text, name, j, m);
        assert LastTouch(ops, text, name, j, k);
      }
    }
  }

  /** A name is stored when something was put under it last. */
  ghost predicate Holds(ops: seq<Op>, text: Ptr -> string, name: string, k: nat) {
    exists j: nat :: LastTouch(ops, text, name, j, k) && ops[j].PutOp?
  }

  /**
   The answers, from the operations alone: a lookup gives the value put last, a removal tells whether there was
   one, and the pairs put are those of the put operations.
   */
  lemma {:induction false} AnswersMean(ops: seq<Op>, text: Ptr -> string, k: nat)
    requires k < |ops|
    ensures |Answers(ops, text)| == |ops|
    ensures match ops[k]
      case PutOp(_, _) => Answers(ops, text)[k] == Done
      case GetOp(name) =>
        && (!Holds(ops, text, name, k) ==> Answers(ops, text)[k] == Value(None))
        && (forall j: nat | LastTouch(ops, text, name, j, k) && ops[j].PutOp? ::
              Answers(ops, text)[k] == Value(Some(ops[j].val)))
      case RemoveOp(name) => Answers(ops, text)[k] == Found(Holds(ops, text, name, k))
  {
    AnswersCount(ops, text);
    AnswersAt(ops, text, |ops|, k);
    assert ops[..|ops|] == ops;
    match ops[k]
    case PutOp(_, _) =>
    case GetOp(name) => NameAt(ops, text, name, k);
    case RemoveOp(name) => NameAt(ops, text, name, k);
  }

  lemma NameAt(ops: seq<Op>, text: Ptr -> string, name: string, k: nat)
    requires k <= |ops|
    ensures name in After(ops[..k], text) <==> Holds(ops, text, name, k)
    ensures forall j: nat | LastTouch(ops, text, name, j, k) && ops[j].PutOp? ::
              name in After(ops[..k], text) && After(ops[..k], text)[name] == Pair(ops[j].key, ops[j].val)
  {
    StoredIsLast(ops, text, name, k);
    forall j: nat | LastTouch(ops, text, name, j, k) && ops[j].PutOp?
      ensures name in After(ops[..k], text) && After(ops[..k], text)[name] == Pair(ops[j].key, ops[j].val)
    {
      assert StoredLast(ops, text, name, k, j);
    }
    if !NeverTouched(ops, text, name, k) {
      SomeTouch(ops, text, name, k);
      var j: nat :| LastTouch(ops, text, name, j, k);
      assert StoredLast(ops, text, name, k, j);
    }
  }

  lemma {:induction false} AnswersCount(ops: seq<Op>, text: Ptr -> string)
    ensures |Answers(ops, text)| == |ops|
  {
    if ops != [] { AnswersCount(ops[..|ops| - 1], text); }
  }

  ghost predicate AnswerAt(ops: seq<Op>, text: Ptr -> string, n: nat, k: nat) {
    && k < n <= |ops| && k < |Answers(ops[..n], text)|
    && Answers(ops[..n], text)[k] == Apply(After(ops[..k], text), ops[k], text).1
  }

  lemma {:induction false} AnswersAt(ops: seq<Op>, text: Ptr -> string, n: nat, k: nat)
    requires k < n <= |ops|
    ensures AnswerAt(ops, text, n, k)
  {
    var m := n - 1;
    OneMore(ops, m, text);
    AnswersCount(ops[..m], text);
    if k < m { AnswersAt(ops, text, m, k); }
  }

  /** The places of the operations that put the pair. */
  function PlacesOf(ops: seq<Op>, p: Pair): set<nat> {
    set i | 0 <= i < |ops| && ops[i] == PutOp(p.key, p.val)
  }

  lemma PlacesMore(ops: seq<Op>, op: Op, p: Pair)
    ensures PlacesOf(ops + [op], p) == PlacesOf(ops, p) + if op == PutOp(p.key, p.val) then {|ops|} else {}
  {
  }

  /** Each pair was put as often as an operation puts it. */
  lemma {:induction false} PairsPutCounts(ops: seq<Op>, p: Pair)
    ensures PairsPut(ops)[p] == |PlacesOf(ops, p)|
  {
    if ops != [] {
      var n := |ops| - 1;
      PairsPutCounts(ops[..n], p);
      assert ops == ops[..n] + [ops[n]];
      PlacesMore(ops[..n], ops[n], p);
    }
  }

  lemma OneMore(ops: seq<Op>, k: nat, text: Ptr -> string)
    requires k < |ops|
    ensures After(ops[..k + 1], text) == Apply(After(ops[..k], text), ops[k], text).0
    ensures Answers(ops[..k + 1], text) == Answers(ops[..k], text) + [Apply(After(ops[..k], text), ops[k], text).1]
    ensures PairsPut(ops[..k + 1]) == PairsPut(ops[..k]) + Put1(ops[k])
  {
    assert ops[..k + 1][..k] == ops[..k];
  }

  method Do(m: Map, op: Op) returns (overflow: bool, answer: Answer)
    requires m.Valid()
    modifies m, m.entries
    ensures m.Valid() && (m.entries == old(m.entries) || fresh(m.entries))
    ensures overflow ==> m.Pairs() == old(m.Pairs()) && |m.Pairs()| >= MaxLoad(MAX_CAPACITY)
    ensures !overflow ==>
              && m.Pairs() == Apply(old(m.Pairs()), op, m.text).0
              && answer == Apply(old(m.Pairs()), op, m.text).1
              && m.given == old(m.given) + Put1(op)
  {
    overflow, answer := false, Done;
    match op
    case PutOp(key, val) =>
      overflow := m.Put(key, val);
      if overflow {
        CountIsSize(m.entries[..], m.text);
      }
    case GetOp(name) =>
      var val := m.Get(name);
      answer := Value(val);
    case RemoveOp(name) =>
      var found := m.Remove(name);
      answer := Found(found);
  }

  /**
   Create, operate, destroy. Unless the table overflows, every answer is the one a mathematical map
   gives, and every pair ever put is freed exactly as often as it was put.
   */
  method Live(ops: seq<Op>, text: Ptr -> string, hash: string -> Hash32)
    returns (overflow: bool, answers: seq<Answer>, ghost freed: seq<Pair>)
    ensures !overflow ==> answers == Answers(ops, text)
    ensures !overflow ==> multiset(freed) == PairsPut(ops)
    ensures overflow ==> exists k | 0 <= k < |ops| :: |After(ops[..k], text)| >= MaxLoad(MAX_CAPACITY)
  {
    var m := new Map(text, hash);
    overflow, answers, freed := false, [], [];
    var k := 0;
    while k < |ops|
      invariant 0 <= k <= |ops| && m.Valid() && m.text == text && fresh(m) && fresh(m.entries)
      invariant m.Pairs() == After(ops[..k], text) && answers == Answers(ops[..k], text)
      invariant m.given == PairsPut(ops[..k])
    {
      OneMore(ops, k, text);
      var answer;
      overflow, answer := Do(m, ops[k]);
      if overflow {
        return;
      }
      answers := answers + [answer];
      k := k + 1;
    }
    assert ops[..k] == ops;
    m.Destroy();
    freed := m.freed;
    overflow := false;
  }

  /** The number of used slots is the number of keys. */
  lemma {:induction false} CountIsSize(t: seq<Slot>, text: Ptr -> string)
    requires Unique(t, text)
    ensures |Contents(t, text)| == Used(t)
  {
    if t == [] {
    } else {
      var init := t[..|t| - 1];
      assert Unique(init, text) by {
        forall j: nat, k: nat ensures Differ(init, text, j, k) { assert Differ(t, text, j, k); }
      }
      CountIsSize(init, text);
      ContentsRepresented(init, text);
      forall j: nat | j < |init| && init[j].Full?
      && t[|t| - 1].Full? ensures text(init[j].key) != text(t[|t| - 1].key) {
        assert Differ(t, text, j, |t| - 1);
      }
    }
  }
}
