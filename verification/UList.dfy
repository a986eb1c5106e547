/**
 The sliding list of ulist.c: elements lie at [start, start + num) of a block that grows, shrinks and
 is compacted. Every operation is that of a plain sequence.
 */
module UList {
  import opened Options

  const ALLOC_UNIT := 32

  function Without<T>(s: seq<T>, i: nat): seq<T>
    requires i < |s|
  {
    s[..i] + s[i + 1..]
  }

  function With<T>(s: seq<T>, i: nat, x: T): seq<T>
    requires i <= |s|
  {
    s[..i] + [x] + s[i..]
  }

  ghost predicate InsertedAt<T>(s: seq<T>, idx: nat, x: T, t: seq<T>, i: nat) {
    |t| == |s| + 1 && idx <= |s| && (i < |t| ==> t[i] == if i < idx then s[i] else if i == idx then x else s[i - 1])
  }

  lemma InsertedIsWith<T>(s: seq<T>, idx: nat, x: T, t: seq<T>)
    requires idx <= |s| && forall i: nat :: InsertedAt(s, idx, x, t, i)
    ensures t == With(s, idx, x)
  {
    assert InsertedAt(s, idx, x, t, 0);
    forall i | 0 <= i < |t| ensures t[i] == With(s, idx, x)[i] {
      assert InsertedAt(s, idx, x, t, i);
    }
  }

  /** How long a block is after a removal that leaves `num` elements: cut, if it is large and at most half used. */
  function Shrunk(length: nat, num: nat): (r: nat)
    ensures length <= 32 || length < 2 * num ==> r == length
    ensures length > 32 && length >= 2 * num ==> r == if num > 32 then num else 32
    ensures r <= length && (r <= 32 || r < 2 * num)
  {
    if length > ALLOC_UNIT && length >= num * 2 then (if num > ALLOC_UNIT then num else ALLOC_UNIT) else length
  }

  /** The first position of `x`. */
  function Find<T(==)>(s: seq<T>, x: T): (r: Option<nat>)
    ensures match r
      case None => x !in s
      case Some(i) => i < |s| && s[i] == x && x !in s[..i]
  {
    if s == [] then None
    else if s[0] == x then Some(0)
    else match Find(s[1..], x)
      case None => None
      case Some(i) =>
        assert s[..i + 1] == [s[0]] + s[1..][..i];
        Some(i + 1)
  }

  class List<T(0, ==)> {
    var data: array<T>
    var start: nat
    var num: nat

    ghost predicate Valid()
      reads this
    {
      start + num <= data.Length
    }

    ghost function Contents(): seq<T>
      reads this, data
      requires Valid()
    {
      data[start..start + num]
    }

    /** ulist_init */
    constructor (initial: nat)
      ensures Valid() && fresh(data) && Contents() == []
      ensures start == 0 && num == 0 && data.Length == if initial == 0 then ALLOC_UNIT else initial
    {
      var len := if initial == 0 then ALLOC_UNIT else initial;
      data := new T[len];
      start, num := 0, 0;
    }

    /** A list whose fields are all zero, as a declaration leaves it. */
    constructor Zero()
      ensures Valid() && fresh(data) && Contents() == [] && start == 0 && num == 0 && data.Length == 0
    {
      data := new T[0];
      start, num := 0, 0;
    }

    /** realloc: the block keeps what fits. */
    method Realloc(anum: nat)
      requires Valid() && start + num <= anum
      modifies this`data
      ensures Valid() && fresh(data) && data.Length == anum && Contents() == old(Contents())
    {
      var block := new T[anum];
      var keep := if anum < data.Length then anum else data.Length;
      forall i | 0 <= i < keep {
        block[i] := data[i];
      }
      assert block[start..start + num] == data[start..start + num];
      data := block;
    }

    method Grow()
      requires Valid()
      modifies this`data
      ensures Valid() && fresh(data) && data.Length == old(data.Length) + num + 1 && Contents() == old(Contents())
    {
      Realloc(data.Length + num + 1);
    }

    /** memmove of the elements to the front of the block. */
    method Compact()
      requires Valid()
      modifies this`start, data
      ensures Valid() && start == 0 && Contents() == old(Contents())
    {
      if start > 0 {
        forall i | 0 <= i < num {
          data[i] := data[start + i];
        }
        start := 0;
      }
    }

    /** A block at most half used is compacted and cut. */
    method Shrink()
      requires Valid()
      modifies this`start, this`data, data
      ensures Valid() && (data == old(data) || fresh(data)) && Contents() == old(Contents())
      ensures old(data.Length) <= ALLOC_UNIT ==> start == old(start) && data == old(data)
      ensures data.Length == Shrunk(old(data.Length), num)
      ensures start == if old(data.Length) > 32 && old(data.Length) >= 2 * num then 0 else old(start)
    {
      if data.Length > ALLOC_UNIT && data.Length >= num * 2 {
        Compact();
        Realloc(if num > ALLOC_UNIT then num else ALLOC_UNIT);
      }
    }

    /** ulist_get */
    method Get(idx: nat) returns (r: Option<T>)
      requires Valid()
      ensures r == if idx < num then Some(Contents()[idx]) else None
    {
      if idx >= num {
        return None;
      }
      r := Some(data[start + idx]);
    }

    /** ulist_set */
    method Set(idx: nat, x: T)
      requires Valid()
      modifies data
      ensures Valid() && Contents() == if idx < num then old(Contents())[idx := x] else old(Contents())
    {
      if idx >= num {
        return;
      }
      data[start + idx] := x;
    }

    /** ulist_insert */
    method Insert(idx: nat, x: T)
      requires Valid()
      modifies this`data, this`num, data
      ensures Valid() && (data == old(data) || fresh(data))
      ensures Contents() == if idx <= old(num) then With(old(Contents()), idx, x) else old(Contents())
      ensures data.Length == if idx <= old(num) && old(start + num) >= old(data.Length)
                             then old(data.Length) + old(num) + 1 else old(data.Length)
    {
      if idx > num {
        return;
      }
      if start + num >= data.Length {
        Grow();
      }
      InsertInPlace(idx, x);
    }

    method InsertInPlace(idx: nat, x: T)
      requires Valid() && idx <= num && start + num < data.Length
      modifies this`num, data
      ensures Valid() && Contents() == With(old(Contents()), idx, x)
    {
      ghost var s := Contents();
      var at := start + idx;
      forall i | at <= i < start + num {
        data[i + 1] := data[i];
      }
      data[at] := x;
      num := num + 1;
      ghost var t := Contents();
      forall i: nat ensures InsertedAt(s, idx, x, t, i) {
        if idx < i < |t| { assert t[i] == data[start + i] == s[i - 1]; }
      }
      InsertedIsWith(s, idx, x, t);
    }

    /** ulist_remove */
    method Remove(idx: nat)
      requires Valid()
      modifies this`start, this`data, this`num, data
      ensures Valid() && (data == old(data) || fresh(data))
      ensures Contents() == if idx < old(num) then Without(old(Contents()), idx) else old(Contents())
      ensures data.Length == if idx < old(num) then Shrunk(old(data.Length), num) else old(data.Length)
    {
      if idx >= num {
        return;
      }
      var at := start + idx;
      num := num - 1;
      forall i | at <= i < start + num {
        data[i] := data[i + 1];
      }
      assert Contents() == Without(old(Contents()), idx);
      Shrink();
    }

    /** ulist_push */
    method Push(x: T)
      requires Valid()
      modifies this`data, this`num, data
      ensures Valid() && (data == old(data) || fresh(data))
      ensures Contents() == old(Contents()) + [x] && num == old(num) + 1
      ensures old(start + num) < old(data.Length) ==> data == old(data)
      ensures data.Length == if old(start + num) >= old(data.Length) then old(data.Length) + old(num) + 1
                             else old(data.Length)
    {
      var idx := start + num;
      if idx >= data.Length {
        Grow();
      }
      data[idx] := x;
      num := num + 1;
      assert Contents() == old(Contents()) + [x];
    }

    /** ulist_pop */
    method Pop()
      requires Valid()
      modifies this`start, this`data, this`num, data
      ensures Valid() && (data == old(data) || fresh(data))
      ensures Contents() == if old(num) == 0 then [] else old(Contents())[..old(num) - 1]
      ensures data.Length == if old(num) == 0 then old(data.Length) else Shrunk(old(data.Length), num)
    {
      if num == 0 {
        return;
      }
      num := num - 1;
      Shrink();
    }

    /** ulist_unshift */
    method Unshift(x: T)
      requires Valid()
      modifies this`start, this`data, this`num, data
      ensures Valid() && (data == old(data) || fresh(data))
      ensures Contents() == [x] + old(Contents())
      ensures data.Length == if old(start) == 0 && old(num) >= old(data.Length) then old(data.Length) + old(num) + 1
                             else old(data.Length)
    {
      if start == 0 {
        if num >= data.Length {
          Grow();
        }
        MoveToEnd();
      }
      PutInFront(x);
    }

    method PutInFront(x: T)
      requires Valid() && start > 0
      modifies this`start, this`num, data
      ensures Valid() && Contents() == [x] + old(Contents())
    {
      data[start - 1] := x;
      start := start - 1;
      num := num + 1;
      assert Contents() == [x] + old(Contents());
    }

    /** memmove of the elements to the end of the block. */
    method MoveToEnd()
      requires Valid() && start == 0 && num < data.Length
      modifies this`start, data
      ensures Valid() && start == data.Length - num && Contents() == old(Contents())
    {
      var to := data.Length - num;
      forall i | 0 <= i < num {
        data[to + i] := data[i];
      }
      start := to;
    }

    /** ulist_shift */
    method Shift()
      requires Valid()
      modifies this`start, this`data, this`num, data
      ensures Valid() && (data == old(data) || fresh(data))
      ensures Contents() == if old(num) == 0 then [] else old(Contents())[1..]
      ensures old(data.Length) <= ALLOC_UNIT && old(num) > 0 ==> start == old(start) + 1 && data == old(data)
      ensures data.Length == if old(num) == 0 then old(data.Length) else Shrunk(old(data.Length), num)
    {
      if num == 0 {
        return;
      }
      start := start + 1;
      num := num - 1;
      Shrink();
    }

    /** ulist_find */
    method IndexOf(x: T) returns (r: int)
      requires Valid()
      ensures r == match Find(Contents(), x) case None => -1 case Some(i) => i as int
    {
      var i := start;
      while i < start + num
        invariant start <= i <= start + num && x !in data[start..i]
      {
        if data[i] == x {
          assert Contents()[..i - start] == data[start..i];
          FindIs(Contents(), x, i - start);
          return i - start;
        }
        i := i + 1;
      }
      r := -1;
    }

    /** ulist_remove_by: the first occurrence goes; what is returned is its place in the block. */
    method RemoveBy(x: T) returns (r: int)
      requires Valid()
      modifies this`start, this`data, this`num, data
      ensures Valid() && (data == old(data) || fresh(data))
      ensures match Find(old(Contents()), x)
        case None => r == -1 && Contents() == old(Contents())
        case Some(k) => r == old(start) + k && Contents() == Without(old(Contents()), k)
      ensures r != -1 ==> ((r == match Find(old(Contents()), x) case None => -1 case Some(k) => k as int) <==>
                old(start) == 0)
    {
      var i := start;
      while i < start + num
        invariant start <= i <= start + num && x !in data[start..i]
        invariant start == old(start) && num == old(num) && data == old(data) && data[..] == old(data[..])
      {
        if data[i] == x {
          assert Contents()[..i - start] == data[start..i];
          FindIs(Contents(), x, i - start);
          Remove(i - start);
          return i;
        }
        i := i + 1;
      }
      r := -1;
    }

    /** ulist_clone */
    method Clone() returns (c: List<T>)
      requires Valid()
      ensures fresh(c) && fresh(c.data) && c.Valid() && c.Contents() == Contents() && c.start == 0
      ensures c.data.Length == if num > 32 then num else if num == 0 && data.Length > 0 then data.Length else 32
    {
      if num == 0 {
        c := new List(data.Length);
        return;
      }
      c := new List(if num > ALLOC_UNIT then num else ALLOC_UNIT);
      forall i | 0 <= i < num {
        c.data[i] := data[start + i];
      }
      c.num := num;
      assert c.Contents() == Contents();
    }
  }

  lemma FindIs<T>(s: seq<T>, x: T, k: nat)
    requires k < |s| && s[k] == x && x !in s[..k]
    ensures Find(s, x) == Some(k)
  {
    var i := Find(s, x).value;
    assert forall j | 0 <= j < k :: s[..k][j] == s[j] && s[..k][j] in s[..k];
    assert forall j | 0 <= j < i :: s[..i][j] == s[j] && s[..i][j] in s[..i];
  }

  // ---------------------------------------------------------------- whole lives

  datatype Op<T> = DoPush(x: T) | DoPop | DoUnshift(x: T) | DoShift | DoInsert(i: nat, x: T) | DoRemove(i: nat)
    | DoSet(i: nat, x: T) | DoRemoveBy(x: T) | DoClone

  /** The operation on a plain sequence. */
  function Apply<T(==)>(s: seq<T>, op: Op<T>): seq<T> {
    match op
    case DoPush(x) => s + [x]
    case DoPop => if s == [] then s else s[..|s| - 1]
    case DoUnshift(x) => [x] + s
    case DoShift => if s == [] then s else s[1..]
    case DoInsert(i, x) => if i <= |s| then With(s, i, x) else s
    case DoRemove(i) => if i < |s| then Without(s, i) else s
    case DoSet(i, x) => if i < |s| then s[i := x] else s
    case DoRemoveBy(x) => (match Find(s, x) case None => s case Some(k) => Without(s, k))
    case DoClone => s
  }

  function After<T(==)>(s: seq<T>, ops: seq<Op<T>>): seq<T>
    decreases |ops|
  {
    if ops == [] then s else Apply(After(s, ops[..|ops| - 1]), ops[|ops| - 1])
  }

  /** What one operation undoes of another. */
  lemma Undone<T>(s: seq<T>, i: nat, x: T)
    requires i <= |s|
    ensures Apply(Apply(s, DoPush(x)), DoPop) == s
    ensures Apply(Apply(s, DoUnshift(x)), DoShift) == s
    ensures Apply(Apply(s, DoInsert(i, x)), DoRemove(i)) == s
    ensures i < |s| ==> Apply(Apply(s, DoRemove(i)), DoInsert(i, s[i])) == s
  {
    assert ([x] + s)[1..] == s;
    var t := With(s, i, x);
    assert t[..i] == s[..i] && t[i + 1..] == s[i..];
    if i < |s| {
      var u := Without(s, i);
      assert u[..i] == s[..i] && u[i..] == s[i + 1..];
    }
  }

  /** What the operations at the ends make of a plain sequence. */
  lemma EndsMean<T>(s: seq<T>, x: T)
    ensures var t := Apply(s, DoPush(x)); |t| == |s| + 1 && t[|s|] == x && t[..|s|] == s
    ensures var t := Apply(s, DoUnshift(x)); |t| == |s| + 1 && t[0] == x && t[1..] == s
    ensures s == [] ==> Apply(s, DoPop) == [] && Apply(s, DoShift) == []
    ensures s != [] ==> Apply(s, DoPop) + [s[|s| - 1]] == s && [s[0]] + Apply(s, DoShift) == s
    ensures Apply(s, DoClone) == s
  {
  }

  /** What those at a position make of it; out of range nothing happens. */
  lemma PositionsMean<T>(s: seq<T>, i: nat, x: T)
    ensures i <= |s| ==>
              var t := Apply(s, DoInsert(i, x)); |t| == |s| + 1 && t[i] == x && t[..i] == s[..i] && t[i + 1..] == s[i..]
    ensures i < |s| ==> var t := Apply(s, DoRemove(i)); |t| == |s| - 1 && t[..i] == s[..i] && t[i..] == s[i + 1..]
    ensures i < |s| ==>
              var t := Apply(s, DoSet(i, x)); |t| == |s| && t[i] == x && t[..i] == s[..i] && t[i + 1..] == s[i + 1..]
    ensures i > |s| ==> Apply(s, DoInsert(i, x)) == s
    ensures i >= |s| ==> Apply(s, DoRemove(i)) == s && Apply(s, DoSet(i, x)) == s
  {
    if i < |s| {
      var u := Without(s, i);
      assert u[..i] == s[..i] && u[i..] == s[i + 1..];
    }
    if i <= |s| {
      var w := With(s, i, x);
      assert w[..i] == s[..i] && w[i + 1..] == s[i..];
    }
  }

  /** The first occurrence is removed, and only it. */
  lemma FirstGoes<T>(s: seq<T>, i: nat, x: T)
    ensures i < |s| && s[i] == x && x !in s[..i] ==>
              var t := Apply(s, DoRemoveBy(x)); |t| == |s| - 1 && t[..i] == s[..i] && t[i..] == s[i + 1..]
    ensures x !in s ==> Apply(s, DoRemoveBy(x)) == s
  {
    if i < |s| && s[i] == x && x !in s[..i] {
      FindIs(s, x, i);
      var u := Without(s, i);
      assert u[..i] == s[..i] && u[i..] == s[i + 1..];
    }
  }

  method Do<T(0, ==)>(list: List<T>, op: Op<T>) returns (next: List<T>)
    requires list.Valid()
    modifies list, list.data
    ensures next.Valid() && next.Contents() == Apply(old(list.Contents()), op)
    ensures (next == list && (list.data == old(list.data) || fresh(list.data))) || (fresh(next) && fresh(next.data))
  {
    next := list;
    match op
    case DoPush(x) => list.Push(x);
    case DoPop => list.Pop();
    case DoUnshift(x) => list.Unshift(x);
    case DoShift => list.Shift();
    case DoInsert(i, x) => list.Insert(i, x);
    case DoRemove(i) => list.Remove(i);
    case DoSet(i, x) => list.Set(i, x);
    case DoRemoveBy(x) => var r := list.RemoveBy(x);
    case DoClone => next := list.Clone();
  }

  /** After push, push, shift the list begins inside its block, and the position reported is not the element's. */
  method RemoveByMisreports() returns (at: int, r: int)
    ensures at == 0 && r == 1
  {
    var list := new List<int>(0);
    list.Push(7);
    list.Push(8);
    list.Shift();
    assert list.Contents() == [8];
    at := list.IndexOf(8);
    r := list.RemoveBy(8);
  }

  /**
   From a list that was initialized or left zero, any mix of operations leaves the list with what they make
   of a plain sequence.
   */
  method Live<T(0, ==)>(initial: Option<nat>, ops: seq<Op<T>>) returns (list: List<T>)
    ensures list.Valid() && list.Contents() == After([], ops)
  {
    if initial.Some? {
      list := new List(initial.value);
    } else {
      list := new List.Zero();
    }
    var i := 0;
    while i < |ops|
      invariant 0 <= i <= |ops| && fresh(list) && fresh(list.data) && list.Valid()
      invariant list.Contents() == After([], ops[..i])
    {
      assert ops[..i + 1][..i] == ops[..i];
      list := Do(list, ops[i]);
      i := i + 1;
    }
    assert ops[..i] == ops;
  }
}
