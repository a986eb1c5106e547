/**
 The arena of pool.c. A block is a unit and an offset inside it.
 */
module Pool {
  import opened Options

  const ALIGN := 8

  function RoundUp(n: nat): (r: nat)
    ensures n <= r < n + ALIGN && r % ALIGN == 0
  {
    (n + 7) / 8 * 8
  }

  /** A live block: its unit, where it begins, and its rounded size. */
  datatype Block = Block(unit: nat, offset: nat, size: nat)

  ghost predicate Fits(units: seq<nat>, b: Block) {
    b.unit < |units| && b.offset + b.size <= units[b.unit] && b.offset % ALIGN == 0 && b.size % ALIGN == 0
  }

  ghost predicate Disjoint(a: Block, b: Block) {
    a.unit != b.unit || a.offset + a.size <= b.offset || b.offset + b.size <= a.offset
  }

  ghost predicate FitsAt(units: seq<nat>, blocks: seq<Block>, i: nat) {
    i < |blocks| ==> Fits(units, blocks[i])
  }

  ghost predicate DisjointAt(blocks: seq<Block>, i: nat, j: nat) {
    i < j < |blocks| ==> Disjoint(blocks[i], blocks[j])
  }

  /** Where the next block begins: behind every block of the last unit. */
  ghost predicate BehindAt(units: seq<nat>, blocks: seq<Block>, usiz: nat, i: nat) {
    i < |blocks| && blocks[i].unit == |units| - 1 ==> blocks[i].offset + blocks[i].size <= usiz
  }

  ghost predicate GrowsAt(units: seq<nat>, i: nat) {
    0 < i < |units| ==> units[i] > 2 * units[i - 1]
  }

  ghost predicate Growing(units: seq<nat>) {
    forall i: nat :: GrowsAt(units, i)
  }

  ghost predicate Layout(units: seq<nat>, blocks: seq<Block>, usiz: nat) {
    && (forall i: nat :: FitsAt(units, blocks, i))
    && (forall i: nat, j: nat :: DisjointAt(blocks, i, j))
    && (forall i: nat :: BehindAt(units, blocks, usiz, i))
  }

  function Pow2(n: nat): nat {
    if n == 0 then 1 else 2 * Pow2(n - 1)
  }

  /** Each unit is more than twice as large as the one before, so their number is logarithmic in the largest. */
  lemma {:induction false} UnitsAreFew(units: seq<nat>, n: nat)
    requires Growing(units) && n < |units|
    ensures units[n] + 1 >= Pow2(n)
  {
    if n > 0 {
      UnitsAreFew(units, n - 1);
      assert GrowsAt(units, n);
    }
  }

  lemma BlockAdded(units: seq<nat>, blocks: seq<Block>, usiz: nat, siz: nat)
    requires Layout(units, blocks, usiz) && |units| > 0 && usiz + siz <= units[|units| - 1]
    requires usiz % ALIGN == 0 && siz % ALIGN == 0
    ensures Layout(units, blocks + [Block(|units| - 1, usiz, siz)], usiz + siz)
  {
    var more, used := blocks + [Block(|units| - 1, usiz, siz)], usiz + siz;
    forall i: nat ensures FitsAt(units, more, i) { assert FitsAt(units, blocks, i); }
    forall i: nat ensures BehindAt(units, more, used, i) { assert BehindAt(units, blocks, usiz, i); }
    forall i: nat, j: nat ensures DisjointAt(more, i, j) {
      assert DisjointAt(blocks, i, j) && BehindAt(units, blocks, usiz, i) && FitsAt(units, blocks, i);
    }
  }

  lemma UnitAdded(units: seq<nat>, blocks: seq<Block>, usiz: nat, siz: nat)
    requires Layout(units, blocks, usiz)
    ensures Layout(units + [siz], blocks, 0)
    ensures Growing(units) && (|units| > 0 ==> siz > 2 * units[|units| - 1]) ==> Growing(units + [siz])
  {
    var more := units + [siz];
    forall i: nat ensures FitsAt(more, blocks, i) { assert FitsAt(units, blocks, i); }
    forall i: nat ensures BehindAt(more, blocks, 0, i) { assert FitsAt(units, blocks, i); }
    if Growing(units) && (|units| > 0 ==> siz > 2 * units[|units| - 1]) {
      forall i: nat ensures GrowsAt(more, i) { assert GrowsAt(units, i); }
    }
  }

  class Arena {
    var units: seq<nat>
    var usiz: nat
    var asiz: nat
    ghost var blocks: seq<Block>

    ghost predicate Valid()
      reads this
    {
      && Layout(units, blocks, usiz) && Growing(units)
      && usiz <= asiz && usiz % ALIGN == 0 && asiz % ALIGN == 0
      && asiz == if units == [] then 0 else units[|units| - 1]
    }

    /** pool_create_empty */
    constructor ()
      ensures Valid() && blocks == [] && units == []
    {
      units, usiz, asiz, blocks := [], 0, 0, [];
    }

    /** pool_create_preallocated */
    constructor Preallocated(siz: nat)
      ensures Valid() && blocks == [] && units == [RoundUp(siz)]
    {
      units, usiz, asiz, blocks := [], 0, 0, [];
      new;
      Extend(siz);
    }

    /** _extend */
    method Extend(siz0: nat)
      requires Valid() && (units == [] || siz0 > 2 * asiz)
      modifies this
      ensures Valid() && usiz == 0 && asiz == RoundUp(siz0) && units == old(units) + [asiz] && blocks == old(blocks)
    {
      var siz := RoundUp(siz0);
      UnitAdded(units, blocks, usiz, siz);
      units := units + [siz];
      usiz, asiz := 0, siz;
    }

    /** pool_alloc: a new block, aligned, inside its unit and apart from every block handed out before;
        null only when nothing is asked of an arena without units. */
    method Alloc(siz0: nat) returns (b: Option<Block>)
      requires Valid()
      modifies this
      ensures Valid() && (b == None <==> siz0 == 0 && old(units) == [])
      ensures b == None ==> blocks == old(blocks) && units == old(units)
      ensures b.Some? ==> blocks == old(blocks) + [b.value] && b.value.size == RoundUp(siz0) && Fits(units, b.value)
      ensures units == old(units) || (units == old(units) + [asiz] && asiz > 2 * old(asiz))
      ensures units == old(units) <==> old(usiz) + RoundUp(siz0) <= old(asiz)
      ensures units != old(units) ==> asiz == RoundUp(old(usiz) + RoundUp(siz0) + old(asiz))
      ensures b.Some? ==> b.value == Block(|units| - 1, if units == old(units) then old(usiz) else 0, RoundUp(siz0))
      ensures b.Some? ==> usiz == b.value.offset + b.value.size
    {
      var siz := RoundUp(siz0);
      var used := usiz + siz;
      if used > asiz {
        used := used + asiz;
        Extend(used);
      }
      if |units| == 0 {
        return None;
      }
      b := Some(Block(|units| - 1, usiz, siz));
      BlockAdded(units, blocks, usiz, siz);
      usiz := usiz + siz;
      blocks := blocks + [b.value];
      assert FitsAt(units, blocks, |blocks| - 1);
    }
  }

  /** What was handed out for each request. */
  function Given(answers: seq<Option<Block>>): seq<Block> {
    if answers == [] then []
    else
      var a := answers[|answers| - 1];
      Given(answers[..|answers| - 1]) + if a.Some? then [a.value] else []
  }

  /** Where the block given for request `i` stands among all. */
  lemma {:induction false} GivenAt(answers: seq<Option<Block>>, i: nat, n: nat)
    requires i < n <= |answers| && answers[i].Some?
    ensures |Given(answers[..i])| < |Given(answers[..n])|
    ensures Given(answers[..n])[|Given(answers[..i])|] == answers[i].value
  {
    var m := n - 1;
    assert answers[..n][..m] == answers[..m];
    if i < m { GivenAt(answers, i, m); }
  }

  lemma GivenApart(units: seq<nat>, answers: seq<Option<Block>>, usiz: nat)
    requires Layout(units, Given(answers), usiz)
    ensures forall i | 0 <= i < |answers| && answers[i].Some? :: Fits(units, answers[i].value)
    ensures forall i, j | 0 <= i < j < |answers| && answers[i].Some? && answers[j].Some? ::
              Disjoint(answers[i].value, answers[j].value)
  {
    var n, blocks := |answers|, Given(answers);
    assert answers[..n] == answers;
    forall i | 0 <= i < n && answers[i].Some? ensures Fits(units, answers[i].value) {
      GivenAt(answers, i, n);
      assert FitsAt(units, blocks, |Given(answers[..i])|);
    }
    forall i, j | 0 <= i < j < n && answers[i].Some? && answers[j].Some?
      ensures Disjoint(answers[i].value, answers[j].value)
    {
      GivenAt(answers, i, n);
      GivenAt(answers, j, n);
      GivenAt(answers, i, j);
      assert DisjointAt(blocks, |Given(answers[..i])|, |Given(answers[..j])|);
    }
  }

  /**
   Over any run, from an arena with or without a first unit, all blocks are aligned, inside their units and
   pairwise disjoint, and the units are few.
   */
  method Serve(prealloc: Option<nat>, sizes: seq<nat>) returns (units: seq<nat>, answers: seq<Option<Block>>)
    ensures |answers| == |sizes|
    ensures forall i | 0 <= i < |sizes| :: answers[i].Some? ==> answers[i].value.size == RoundUp(sizes[i])
    ensures exists usiz :: Layout(units, Given(answers), usiz)
    ensures forall i | 0 <= i < |sizes| && answers[i].Some? ::
              var b := answers[i].value;
              b.unit < |units| && b.offset + b.size <= units[b.unit] && b.offset % 8 == 0 && b.size % 8 == 0
    ensures forall i, j | 0 <= i < j < |sizes| && answers[i].Some? && answers[j].Some? ::
              var a, b := answers[i].value, answers[j].value;
              a.unit != b.unit || a.offset + a.size <= b.offset || b.offset + b.size <= a.offset
    ensures Growing(units) && forall n | 0 <= n < |units| :: units[n] + 1 >= Pow2(n)
  {
    var arena;
    if prealloc.Some? {
      arena := new Arena.Preallocated(prealloc.value);
    } else {
      arena := new Arena();
    }
    answers := [];
    var i := 0;
    while i < |sizes|
      invariant 0 <= i <= |sizes| && |answers| == i && fresh(arena) && arena.Valid() && arena.blocks == Given(answers)
      invariant forall k | 0 <= k < i :: answers[k].Some? ==> answers[k].value.size == RoundUp(sizes[k])
    {
      var b := arena.Alloc(sizes[i]);
      assert (answers + [b])[..i] == answers;
      answers := answers + [b];
      i := i + 1;
    }
    units := arena.units;
    assert Layout(units, Given(answers), arena.usiz);
    GivenApart(units, answers, arena.usiz);
    forall n | 0 <= n < |units| ensures units[n] + 1 >= Pow2(n) {
      UnitsAreFew(units, n);
    }
  }
}
