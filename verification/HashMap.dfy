/**
 The hash map of map.c. A key is a pointer; `text` gives the string it points to, and `hash` is
 any 32-bit hash of strings.
 */
module HashMap {
  import opened Options
  import opened HashTable

  const INITIAL_CAPACITY := 64
  const MAX_CAPACITY := 0x4000_0000
  const SHRINK_DIVISOR := 8

  ghost predicate PowerOfTwo(n: nat) {
    n == 1 || (n > 1 && n % 2 == 0 && PowerOfTwo(n / 2))
  }

  /** A power of two below the maximum doubles to a power of two not above it. */
  lemma DoubleFits(n: nat)
    requires PowerOfTwo(n) && n < MAX_CAPACITY
    ensures PowerOfTwo(2 * n) && 2 * n <= MAX_CAPACITY
  {
    Doubled(n);
    MaximumIsPower();
    BelowDoubles(n, MAX_CAPACITY);
  }

  lemma Doubled(n: nat)
    requires PowerOfTwo(n)
    ensures PowerOfTwo(2 * n)
  {
    assert 2 * n / 2 == n;
  }

  lemma Times32(n: nat)
    requires PowerOfTwo(n)
    ensures PowerOfTwo(32 * n)
  {
    Doubled(n);
    Doubled(2 * n);
    Doubled(4 * n);
    Doubled(8 * n);
    Doubled(16 * n);
  }

  lemma MaximumIsPower()
    ensures PowerOfTwo(MAX_CAPACITY)
  {
    Times32(1);
    Times32(0x20);
    Times32(0x400);
    Times32(0x8000);
    Times32(0x10_0000);
    Times32(0x200_0000);
  }

  lemma {:induction false} BelowDoubles(n: nat, top: nat)
    requires PowerOfTwo(n) && PowerOfTwo(top) && n < top
    ensures 2 * n <= top
  {
    if n > 1 { BelowDoubles(n / 2, top / 2); }
  }

  lemma HalfFits(n: nat)
    requires PowerOfTwo(n) && INITIAL_CAPACITY < n
    ensures PowerOfTwo(n / 2) && INITIAL_CAPACITY <= n / 2
  {
    BelowDoubles(INITIAL_CAPACITY, n);
  }

  lemma HalfOf(n: nat)
    requires PowerOfTwo(n) && n > 1
    ensures n == 2 * (n / 2) && PowerOfTwo(n / 2)
  {
  }

  /** A larger table has a multiple of eight slots. */
  lemma EighthOf(n: nat)
    requires PowerOfTwo(n) && n >= 64
    ensures 8 * (n / 8) == n && 4 * (n / 4) == n
  {
    var a := n / 2;
    var b := a / 2;
    var c := b / 2;
    HalfOf(n);
    HalfOf(a);
    HalfOf(b);
    assert n == 8 * c && n == 4 * b;
  }

  /** _map_max_load */
  function MaxLoad(capacity: nat): nat {
    capacity - capacity / 4
  }

  /** Three quarters of the slots, of a table as large as the first one. */
  lemma LoadIsThreeQuarters(capacity: nat)
    requires PowerOfTwo(capacity) && capacity >= 64
    ensures 4 * MaxLoad(capacity) == 3 * capacity
  {
    EighthOf(capacity);
  }

  /** _map_nhash: 32-bit increment, with 0 reserved for empty slots. */
  function NormalHash(h: nat): (r: nat)
    requires h < 0x1_0000_0000
    ensures 0 < r < 0x1_0000_0000
  {
    var r := (h + 1) % 0x1_0000_0000;
    if r != 0 then r else 1
  }

  /** Hashes keep apart, but for the largest one, which wraps around to that of 0. */
  lemma HashesKeepApart(h: nat, k: nat)
    requires h < 0x1_0000_0000 && k < 0x1_0000_0000
    ensures NormalHash(h) == NormalHash(k) <==> h == k || {h, k} == {0, 0xFFFF_FFFF}
    ensures h < 0xFFFF_FFFF ==> NormalHash(h) == h + 1
  {
  }

  type Hash32 = h: nat | h < 0x1_0000_0000

  /** The probe loop of _map_resize: the first empty slot from the home of `hash`. */
  method FirstEmpty(a: array<Slot>, hash: nat) returns (i: nat)
    requires Used(a[..]) < a.Length
    ensures i < a.Length && a[i].Empty? && FullBefore(a[..], hash, i)
  {
    ghost var t := a[..];
    ghost var e := HasEmpty(t);
    i := Home(hash, a.Length);
    while a[i].Full?
      invariant i < a.Length && FullBefore(t, hash, i)
      decreases Dist(i, e, |t|)
    {
      FullStep(t, hash, i, e);
      i := Next(i, a.Length);
    }
  }

  class Map {
    const text: Ptr -> string
    const hash: string -> Hash32
    var entries: array<Slot>
    var capacity: nat
    var count: nat
    ghost var given: multiset<Pair>         // every pair ever put
    ghost var freed: seq<Pair>              // calls of the free callback, in order

    /** The map this object stands for. */
    ghost function Pairs(): map<string, Pair>
      reads this, entries
    {
      Contents(entries[..], text)
    }

    /** The normalized hash of a key text. */
    ghost function NHash(): string -> nat {
      s => NormalHash(hash(s))
    }

    /** Everything but the load limit, which does not hold in the middle of an operation. */
    ghost predicate Table()
      reads this, entries
    {
      && entries.Length == capacity
      && INITIAL_CAPACITY <= capacity <= MAX_CAPACITY && PowerOfTwo(capacity)
      && count == Used(entries[..])
      && Sound(entries[..], text, NHash())
      && Balanced(given, freed, entries[..])
    }

    ghost predicate Valid()
      reads this, entries
    {
      Table() && count <= MaxLoad(capacity)
    }

    /** map_create_str */
    constructor (text: Ptr -> string, hash: string -> Hash32)
      ensures Valid() && fresh(entries) && this.text == text && this.hash == hash
      ensures Pairs() == map[] && given == multiset{} && freed == [] && capacity == 64 && count == 0
    {
      this.text := text;
      this.hash := hash;
      entries := new Slot[INITIAL_CAPACITY](_ => Empty);
      capacity := INITIAL_CAPACITY;
      count := 0;
      given, freed := multiset{}, [];
      new;
      EntriesEmpty(entries[..]);
      ContentsRepresented(entries[..], text);
    }

    /** _map_entry_find: the slot of the key, or the capacity when there is none. */
    method EntryFind(key: string) returns (i: nat)
      requires Valid()
      ensures i <= capacity
      ensures i == capacity <==> key !in Pairs()
      ensures i < capacity ==> entries[i].Full? && text(entries[i].key) == key
      ensures i < capacity ==> Pairs()[key] == Pair(entries[i].key, entries[i].val)
    {
      var nhash := NormalHash(hash(key));
      ghost var t := entries[..];
      ghost var e := HasEmpty(t);
      i := Home(nhash, capacity);
      while entries[i].Full?
        invariant i < capacity && Probed(t, text, key, nhash, i)
        decreases Dist(i, e, capacity)
      {
        if entries[i].hash == nhash && text(entries[i].key) == key {
          ContentsAt(t, text, i);
          return;
        }
        assert HashOk(t, text, NHash(), i);
        ProbeStep(t, text, key, nhash, i, e);
        i := Next(i, capacity);
      }
      Absent(t, text, NHash(), key, i);
      i := capacity;
    }

    /** map_get */
    method Get(key: string) returns (val: Option<Ptr>)
      requires Valid()
      ensures val == if key in Pairs() then Some(Pairs()[key].val) else None
    {
      var i := EntryFind(key);
      val := if i < capacity then Some(entries[i].val) else None;
    }

    /** _map_entry_put: the slot of the key, or the empty slot where it belongs. */
    method EntryPut(key: string) returns (i: nat, created: bool)
      requires Table() && count < capacity
      ensures i < capacity && FullBefore(entries[..], NormalHash(hash(key)), i)
      ensures created <==> key !in Pairs()
      ensures created ==> entries[i].Empty?
      ensures !created ==> entries[i].Full? && text(entries[i].key) == key
    {
      var nhash := NormalHash(hash(key));
      ghost var t := entries[..];
      ghost var e := HasEmpty(t);
      i := Home(nhash, capacity);
      while entries[i].Full?
        invariant i < capacity && Probed(t, text, key, nhash, i)
        decreases Dist(i, e, capacity)
      {
        if entries[i].hash == nhash && text(entries[i].key) == key {
          ContentsAt(t, text, i);
          return i, false;
        }
        assert HashOk(t, text, NHash(), i);
        ProbeStep(t, text, key, nhash, i, e);
        i := Next(i, capacity);
      }
      Absent(t, text, NHash(), key, i);
      created := true;
    }

    /** _map_resize: the entries are moved as they are, none is freed. */
    method Resize(newCapacity: nat)
      requires Table() && count < newCapacity && newCapacity != capacity
      requires INITIAL_CAPACITY <= newCapacity <= MAX_CAPACITY && PowerOfTwo(newCapacity)
      modifies this
      ensures Table() && fresh(entries) && capacity == newCapacity
      ensures Pairs() == old(Pairs()) && count == old(count) && given == old(given) && freed == old(freed)
    {
      ghost var t := entries[..];
      var entriesNew, n := Rehash(newCapacity);
      assert n == count;
      BalanceMoves(given, freed, t, entriesNew[..]);
      entries := entriesNew;
      capacity := newCapacity;
    }

    /** The loop of _map_resize: the entries are re-placed in a new array. */
    method Rehash(newCapacity: nat) returns (entriesNew: array<Slot>, n: nat)
      requires entries.Length == capacity && Sound(entries[..], text, NHash())
      requires Used(entries[..]) < newCapacity
      ensures fresh(entriesNew) && entriesNew.Length == newCapacity
      ensures Sound(entriesNew[..], text, NHash())
      ensures Contents(entriesNew[..], text) == Pairs()
      ensures Entries(entriesNew[..]) == Entries(entries[..]) && n == Used(entriesNew[..]) == Used(entries[..])
    {
      ghost var t := entries[..];
      entriesNew := new Slot[newCapacity](_ => Empty);
      MovingStarts(t, text, entriesNew[..]);
      EntriesEmpty(entriesNew[..]);
      n := 0;
      var p := 0;
      while p < capacity
        invariant 0 <= p <= |t|
        invariant Moving(t, text, p, entriesNew[..]) && n == Used(entriesNew[..])
        modifies entriesNew
      {
        if entries[p].Full? {
          RePlace(entriesNew, p);
          n := n + 1;
        } else {
          MovingSkips(t, text, p, entriesNew[..]);
        }
        p := p + 1;
      }
      MovingEnds(t, text, NHash(), entriesNew[..]);
    }

    /** The body of that loop: the entry of slot `p` goes to the first empty slot of its probe path. */
    method RePlace(entriesNew: array<Slot>, p: nat)
      requires entries != entriesNew && entries.Length == capacity && p < capacity && entries[p].Full?
      requires Sound(entries[..], text, NHash()) && Used(entries[..]) < entriesNew.Length
      requires Moving(entries[..], text, p, entriesNew[..])
      modifies entriesNew
      ensures Moving(entries[..], text, p + 1, entriesNew[..])
      ensures Used(entriesNew[..]) == Used(old(entriesNew[..])) + 1
    {
      ghost var t, t' := entries[..], entriesNew[..];
      var i := FirstEmpty(entriesNew, entries[p].hash);
      MovingStep(t, text, p, t', i);
      UsedSet(t', i, t[p]);
      entriesNew[i] := entries[p];
      assert entriesNew[..] == t'[i := t[p]];
    }

    /** _map_reserve_entry: there is room for one more entry, or the table cannot grow any more. */
    method ReserveEntry() returns (overflow: bool)
      requires Valid()
      modifies this
      ensures Valid() && (entries == old(entries) || fresh(entries))
      ensures Pairs() == old(Pairs()) && count == old(count) && given == old(given) && freed == old(freed)
      ensures overflow <==> old(capacity) == MAX_CAPACITY && count + 1 > MaxLoad(MAX_CAPACITY)
      ensures !overflow ==> count + 1 <= MaxLoad(capacity)
      ensures overflow <==> old(capacity) == 0x4000_0000 && 4 * (count + 1) > 3 * 0x4000_0000
      ensures !overflow ==> 4 * (count + 1) <= 3 * capacity
      ensures capacity == if 4 * (count + 1) <= 3 * old(capacity) || overflow then old(capacity) else 2 * old(capacity)
    {
      LoadIsThreeQuarters(capacity);
      if count + 1 <= MaxLoad(capacity) {
        return false;
      }
      if capacity >= MAX_CAPACITY {
        return true;
      }
      DoubleFits(capacity);
      LoadIsThreeQuarters(2 * capacity);
      Resize(capacity * 2);
      overflow := false;
    }

    /** _map_put */
    method Put(key: Ptr, val: Ptr) returns (overflow: bool)
      requires Valid()
      modifies this, entries
      ensures Valid() && (entries == old(entries) || fresh(entries))
      ensures overflow <==> old(capacity) == MAX_CAPACITY && old(count) + 1 > MaxLoad(MAX_CAPACITY)
      ensures overflow <==> old(capacity) == 0x4000_0000 && 4 * (old(count) + 1) > 3 * 0x4000_0000
      ensures overflow ==> Pairs() == old(Pairs()) && given == old(given) && freed == old(freed) && count == old(count)
      ensures capacity == if 4 * (old(count) + 1) <= 3 * old(capacity) || overflow then old(capacity)
                          else 2 * old(capacity)
      ensures !overflow ==> count == old(count) + if text(key) in old(Pairs()) then 0 else 1
      ensures !overflow ==> 4 * count <= 3 * capacity
      ensures !overflow ==>
                && Pairs() == old(Pairs())[text(key) := Pair(key, val)]
                && given == old(given) + multiset{Pair(key, val)}
                && freed == old(freed) + if text(key) in old(Pairs()) then [old(Pairs())[text(key)]] else []
    {
      overflow := ReserveEntry();
      if overflow {
        return;
      }
      var i, created := EntryPut(text(key));
      StoreAt(i, created, key, val);
    }

    /** The end of _map_put: fill the slot, after freeing the pair it holds. */
    method StoreAt(i: nat, created: bool, key: Ptr, val: Ptr)
      requires Valid() && count + 1 <= MaxLoad(capacity)
      requires i < capacity && FullBefore(entries[..], NHash()(text(key)), i)
      requires created <==> text(key) !in Pairs()
      requires created ==> entries[i].Empty?
      requires !created ==> entries[i].Full? && text(entries[i].key) == text(key)
      modifies this, entries
      ensures Valid() && entries == old(entries) && capacity == old(capacity)
      ensures count == old(count) + if created then 1 else 0
      ensures Pairs() == old(Pairs())[text(key) := Pair(key, val)]
      ensures given == old(given) + multiset{Pair(key, val)}
      ensures freed == old(freed) + if created then [] else [old(Pairs())[text(key)]]
    {
      ghost var t := entries[..];
      var slot := Full(NormalHash(hash(text(key))), key, val);
      PutAt(t, text, NHash(), i, key, val);
      PutBalance(given, freed, t, i, slot);
      if created {
        count := count + 1;
      } else {
        freed := freed + [Pair(entries[i].key, entries[i].val)];
      }
      entries[i] := slot;
      given := given + multiset{Pair(key, val)};
      assert entries[..] == t[i := slot];
    }

    /** _map_entry_remove */
    method EntryRemove(h: nat)
      requires Valid() && h < capacity && entries[h].Full?
      modifies this, entries
      ensures Valid()
      ensures Pairs() == old(Pairs()) - {text(old(entries[h].key))}
      ensures given == old(given) && freed == old(freed) + [Pair(old(entries[h].key), old(entries[h].val))]
      ensures count == old(count) - 1
      ensures capacity == if Shrinks(old(capacity), count) then old(capacity) / 2 else old(capacity)
      ensures capacity == if old(capacity) > 64 && 8 * count < old(capacity) then old(capacity) / 2 else old(capacity)
      ensures capacity == old(capacity) ==> entries == old(entries) && Removed(old(entries[..]), entries[..], h)
      ensures capacity != old(capacity) ==> fresh(entries)
    {
      TakeOut(h);
      if capacity > 64 { EighthOf(capacity); }
      if capacity > INITIAL_CAPACITY && count < capacity / SHRINK_DIVISOR {
        HalfFits(capacity);
        Resize(capacity / 2);
      }
    }

    /** _map_entry_remove up to the question whether to shrink. */
    method TakeOut(h: nat)
      requires Valid() && h < capacity && entries[h].Full?
      modifies this, entries
      ensures Valid() && entries == old(entries) && capacity == old(capacity)
      ensures Pairs() == old(Pairs()) - {text(old(entries[h].key))}
      ensures given == old(given) && freed == old(freed) + [Pair(old(entries[h].key), old(entries[h].val))]
      ensures count == old(count) - 1
      ensures Removed(old(entries[..]), entries[..], h)
    {
      ghost var t := entries[..];
      UsedSet(t, h, Empty);
      freed := freed + [Pair(entries[h].key, entries[h].val)];
      count := count - 1;
      ShiftBack(h, t);
      RemoveBalance(given, old(freed), t, entries[..], h);
    }

    /** The loop of _map_entry_remove: the rest of the probe cluster moves back over slot `h`. */
    method ShiftBack(h: nat, ghost t: seq<Slot>)
      requires t == entries[..] && entries.Length == capacity && 1 < capacity
      requires Sound(t, text, NHash()) && Used(t) < capacity
      requires h < capacity && t[h].Full?
      modifies entries
      ensures Sound(entries[..], text, NHash())
      ensures Contents(entries[..], text) == Contents(t, text) - {text(t[h].key)}
      ensures Entries(entries[..]) == Entries(t) - One(t[h]) && Used(entries[..]) == Used(t) - 1
      ensures Removed(t, entries[..], h)
    {
      ghost var e := HasEmpty(t);
      ghost var from := RemovingStarts(t, h, e);
      var hole := h;
      var i := Next(h, capacity);
      while entries[i].Full?
        invariant Removing(t, entries[..], h, from, hole, i, e)
        decreases Dist(i, e, |t|)
      {
        ghost var a := entries[..];
        var home := Home(entries[i].hash, capacity);
        if Dist(home, hole, capacity) <= Dist(home, i, capacity) {
          from := RemovingMoves(t, a, h, from, hole, i, e);
          entries[hole] := entries[i];
          assert entries[..] == a[hole := a[i]];
          hole := i;
        } else {
          RemovingSkips(t, a, h, from, hole, i, e);
        }
        i := Next(i, capacity);
      }
      ghost var a := entries[..];
      RemovingEnds(t, a, text, NHash(), h, from, hole, i, e);
      entries[hole] := Empty;
      assert entries[..] == a[hole := Empty];
    }

    /** map_remove */
    method Remove(key: string) returns (found: bool)
      requires Valid()
      modifies this, entries
      ensures Valid() && (entries == old(entries) || fresh(entries))
      ensures found <==> key in old(Pairs())
      ensures Pairs() == old(Pairs()) - {key} && given == old(given)
      ensures freed == old(freed) + if found then [old(Pairs())[key]] else []
      ensures count == old(count) - if found then 1 else 0
      ensures capacity == if found && Shrinks(old(capacity), count) then old(capacity) / 2 else old(capacity)
      ensures capacity == if found && old(capacity) > 64 && 8 * count < old(capacity) then old(capacity) / 2
                          else old(capacity)
      ensures capacity == old(capacity) ==> entries == old(entries)
      ensures capacity == old(capacity) ==>
                forall h: nat :: HeldAt(old(entries[..]), text, h, key) ==> Removed(old(entries[..]), entries[..], h)
    {
      ghost var t := entries[..];
      var i := EntryFind(key);
      found := i < capacity;
      forall h: nat | HeldAt(t, text, h, key) ensures h == i {
        ContentsAt(t, text, h);
        assert Differ(t, text, h, i);
      }
      if found {
        EntryRemove(i);
      }
    }

    /** map_destroy */
    method Destroy()
      requires Valid()
      modifies this
      ensures multiset(freed) == given && given == old(given) && old(freed) <= freed
    {
      ghost var t := entries[..];
      var p := 0;
      while p < capacity
        invariant 0 <= p <= |t| && freed == FreedUpTo(old(freed), t, p)
        modifies `freed
      {
        if entries[p].Full? {
          freed := freed + [Pair(entries[p].key, entries[p].val)];
        }
        p := p + 1;
      }
      BalanceEnds(given, old(freed), t);
      FreedAll(old(freed), t, p);
    }
  }

  /** _map_entry_remove halves the table when fewer than one slot in eight is used. */
  predicate Shrinks(capacity: nat, count: nat) {
    capacity > INITIAL_CAPACITY && count < capacity / SHRINK_DIVISOR
  }
}
