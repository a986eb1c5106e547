/**
 The iterator of map.c, which is meant to survive the removal of the entry it has just returned:
 the backward shift may then have put another entry into the slot it stands on.
 */
module MapIteration {
  import opened Options
  import opened HashTable
  import opened HashMap

  /** The fields of struct map_iter that steer the walk. */
  datatype Cursor = Cursor(entry: int, bucket: nat, key: Option<Ptr>)

  const START := Cursor(-1, 0, None)

  /** The slot holds something else than what the cursor returned last. */
  predicate Changed(s: Slot, cur: Cursor) {
    s.Full? && (s.hash != cur.bucket || cur.key != Some(s.key))
  }

  /** The entry in slot `j` has yet to be reached by the cursor. */
  ghost predicate Pending(t: seq<Slot>, cur: Cursor, j: nat)
    requires j < |t|
  {
    t[j].Full? && (cur.entry < j || (cur.entry == j && Changed(t[j], cur)))
  }

  /** The cursor was moved to slot `j`, which is the first pending one, and returned its entry. */
  ghost predicate Returned(t: seq<Slot>, cur: Cursor, cur': Cursor, j: nat) {
    && j < |t| && Pending(t, cur, j) && (forall k: nat | k < j :: !Pending(t, cur, k))
    && cur' == Cursor(j, t[j].hash, Some(t[j].key))
  }

  class Iterator {
    var hm: Map
    var entry: int
    var bucket: nat
    var key: Option<Ptr>
    var val: Option<Ptr>

    ghost function At(): Cursor
      reads this
    {
      Cursor(entry, bucket, key)
    }

    /** map_iter_init */
    constructor (hm: Map)
      ensures this.hm == hm && At() == START
    {
      this.hm := hm;
      entry := -1;
      bucket := 0;
      key, val := None, None;
    }

    /** map_iter_next */
    method MoveOn() returns (more: bool)
      requires hm.Valid() && -1 <= entry
      modifies this
      ensures hm == old(hm) && -1 <= entry
      ensures more ==> 0 <= entry < hm.capacity && Returned(hm.entries[..], old(At()), At(), entry)
      ensures more ==> val == Some(hm.entries[entry].val)
      ensures !more ==> entry == hm.capacity
      ensures !more ==> forall k: nat | k < hm.capacity :: !Pending(hm.entries[..], old(At()), k)
    {
      if 0 <= entry < hm.capacity {
        var e := hm.entries[entry];
        if e.Full? && (e.hash != bucket || key != Some(e.key)) {
          bucket, key, val := e.hash, Some(e.key), Some(e.val);
          return true;
        }
      }
      var i := if entry < 0 then 0 else entry + 1;
      while i < hm.capacity && hm.entries[i].Empty?
        invariant entry < i && (i <= hm.capacity || i == entry + 1)
        invariant forall k: nat | k < i && k < hm.capacity :: !Pending(hm.entries[..], old(At()), k)
      {
        i := i + 1;
      }
      if i >= hm.capacity {
        entry := hm.capacity;
        return false;
      }
      var e := hm.entries[i];
      entry, bucket, key, val := i, e.hash, Some(e.key), Some(e.val);
      more := true;
    }
  }

  // ---------------------------------------------------------------- what a walk keeps

  ghost predicate SeenOrPending(t: seq<Slot>, cur: Cursor, seen: seq<Ptr>, j: nat) {
    j < |t| && t[j].Full? ==> t[j].key in seen || Pending(t, cur, j)
  }

  ghost predicate SeenOrStored(t0: seq<Slot>, t: seq<Slot>, seen: seq<Ptr>, j: nat) {
    j < |t0| && t0[j].Full? ==> t0[j].key in seen || t0[j] in t
  }

  ghost predicate FromStart(t0: seq<Slot>, t: seq<Slot>, j: nat) {
    j < |t| && t[j].Full? ==> t[j] in t0
  }

  ghost predicate SeenFromStart(t0: seq<Slot>, seen: seq<Ptr>, i: nat) {
    i < |seen| ==> exists j: nat :: j < |t0| && t0[j].Full? && t0[j].key == seen[i]
  }

  /** A walk that began on table `t0` is at `cur` in table `t` and has returned the keys `seen`. */
  ghost predicate Walking(t0: seq<Slot>, t: seq<Slot>, cur: Cursor, seen: seq<Ptr>) {
    && (forall j: nat :: SeenOrPending(t, cur, seen, j))
    && (forall j: nat :: SeenOrStored(t0, t, seen, j))
    && (forall j: nat :: FromStart(t0, t, j))
    && (forall i: nat :: SeenFromStart(t0, seen, i))
  }

  lemma WalkStarts(t: seq<Slot>)
    ensures Walking(t, t, START, [])
  {
  }

  lemma WalkReturns(t0: seq<Slot>, t: seq<Slot>, cur: Cursor, cur': Cursor, seen: seq<Ptr>, j: nat)
    requires Walking(t0, t, cur, seen) && Returned(t, cur, cur', j)
    ensures Walking(t0, t, cur', seen + [t[j].key])
  {
    var seen' := seen + [t[j].key];
    assert seen'[|seen|] == t[j].key;
    forall k: nat ensures SeenOrPending(t, cur', seen', k) {
      assert SeenOrPending(t, cur, seen, k);
    }
    forall k: nat ensures SeenOrStored(t0, t, seen', k) {
      assert SeenOrStored(t0, t, seen, k);
    }
    forall i: nat ensures SeenFromStart(t0, seen', i) {
      assert SeenFromStart(t0, seen, i) && FromStart(t0, t, j);
    }
  }

  /** Removing the entry just returned loses no pending entry: nothing moves to the cursor's left from its right. */
  lemma WalkRemoves(t0: seq<Slot>, t: seq<Slot>, t': seq<Slot>, cur: Cursor, seen: seq<Ptr>, text: Ptr -> string,
                    h: nat)
    requires h < |t| && t[h].Full? && cur == Cursor(h, t[h].hash, Some(t[h].key)) && t[h].key in seen
    requires Walking(t0, t, cur, seen) && Removed(t, t', h) && Unique(t, text)
    ensures Walking(t0, t', cur, seen)
  {
    forall j': nat ensures SeenOrPending(t', cur, seen, j') && FromStart(t0, t', j') {
      if j' < |t'| && t'[j'].Full? {
        assert Traced(t, t', h, j');
        var j :| CameFrom(t, t', h, j, j');
        assert SeenOrPending(t, cur, seen, j) && FromStart(t0, t, j) && Differ(t, text, h, j);
      }
    }
    forall j: nat ensures SeenOrStored(t0, t', seen, j) {
      assert SeenOrStored(t0, t, seen, j);
      if j < |t0| && t0[j].Full? && t0[j].key !in seen {
        var k :| 0 <= k < |t| && t[k] == t0[j];
        assert Kept(t, t', h, k);
      }
    }
  }

  /** The cursor leaves the table when nothing is pending. */
  lemma WalkStops(t0: seq<Slot>, t: seq<Slot>, cur: Cursor, cur': Cursor, seen: seq<Ptr>)
    requires Walking(t0, t, cur, seen) && forall k: nat | k < |t| :: !Pending(t, cur, k)
    ensures Walking(t0, t, cur', seen)
  {
    forall j: nat ensures SeenOrPending(t, cur', seen, j) {
      assert SeenOrPending(t, cur, seen, j);
    }
  }

  /** At the end everything that was stored at the start has been returned. */
  lemma WalkEnds(t0: seq<Slot>, t: seq<Slot>, cur: Cursor, seen: seq<Ptr>, j: nat)
    requires Walking(t0, t, cur, seen) && forall k: nat | k < |t| :: !Pending(t, cur, k)
    requires j < |t0| && t0[j].Full?
    ensures t0[j].key in seen
  {
    assert SeenOrStored(t0, t, seen, j);
    if k: nat :| k < |t| && t[k] == t0[j] {
      assert SeenOrPending(t, cur, seen, k);
    }
  }

  // ---------------------------------------------------------------- walks as a whole

  ghost predicate NoKeyTwice(seen: seq<Ptr>) {
    forall i, j | 0 <= i < j < |seen| :: seen[i] != seen[j]
  }

  /** Without removals, what has been returned stands at or before the cursor. */
  ghost predicate Behind(t: seq<Slot>, seen: seq<Ptr>, entry: int, i: nat) {
    i < |seen| ==> exists j: nat :: j < |t| && j <= entry && t[j].Full? && t[j].key == seen[i]
  }

  ghost predicate AllBehind(t: seq<Slot>, seen: seq<Ptr>, cur: Cursor) {
    && (forall i: nat :: Behind(t, seen, cur.entry, i)) && NoKeyTwice(seen)
    && (0 <= cur.entry < |t| ==> !Changed(t[cur.entry], cur))
  }

  lemma BehindStep(t: seq<Slot>, text: Ptr -> string, seen: seq<Ptr>, cur: Cursor, cur': Cursor, j: nat)
    requires AllBehind(t, seen, cur) && Returned(t, cur, cur', j) && Unique(t, text)
    ensures AllBehind(t, seen + [t[j].key], cur')
  {
    var seen' := seen + [t[j].key];
    forall i: nat ensures Behind(t, seen', cur'.entry, i) {
      assert Behind(t, seen, cur.entry, i);
    }
    forall i: nat | i < |seen| ensures seen[i] != t[j].key {
      assert Behind(t, seen, cur.entry, i);
      var k: nat :| k < |t| && k <= cur.entry && t[k].Full? && t[k].key == seen[i];
      assert Differ(t, text, k, j);
    }
  }

  /** With every returned entry removed, what has been returned is not stored any more. */
  ghost predicate Gone(t: seq<Slot>, seen: seq<Ptr>, j: nat) {
    j < |t| && t[j].Full? ==> t[j].key !in seen
  }

  ghost predicate AllGone(t: seq<Slot>, seen: seq<Ptr>) {
    (forall j: nat :: Gone(t, seen, j)) && NoKeyTwice(seen)
  }

  lemma GoneStep(t: seq<Slot>, t': seq<Slot>, text: Ptr -> string, seen: seq<Ptr>, h: nat)
    requires AllGone(t, seen) && Unique(t, text) && h < |t| && t[h].Full? && Removed(t, t', h)
    ensures AllGone(t', seen + [t[h].key])
  {
    assert Gone(t, seen, h);
    forall j: nat ensures Gone(t', seen + [t[h].key], j) {
      if j < |t'| && t'[j].Full? {
        assert Traced(t, t', h, j);
        var k :| CameFrom(t, t', h, k, j);
        assert Gone(t, seen, k) && Differ(t, text, k, h);
      }
    }
  }

  lemma NothingLeft(t: seq<Slot>, text: Ptr -> string, cur: Cursor, seen: seq<Ptr>, t0: seq<Slot>)
    requires AllGone(t, seen) && Walking(t0, t, cur, seen) && Unique(t, text)
    requires forall k: nat | k < |t| :: !Pending(t, cur, k)
    ensures Contents(t, text) == map[]
  {
    KeysStored(t, text);
    forall j: nat | j < |t| ensures t[j].Empty? {
      assert Gone(t, seen, j) && SeenOrPending(t, cur, seen, j);
    }
    assert forall s :: s !in Contents(t, text);
  }

  /** The keys of the pairs of a table, by text. */
  lemma KeysStored(t: seq<Slot>, text: Ptr -> string)
    requires Unique(t, text)
    ensures forall s | s in Contents(t, text) :: 
              exists j: nat :: j < |t| && t[j].Full? && t[j].key == Contents(t, text)[s].key
    ensures forall j: nat | j < |t| && t[j].Full? ::
              text(t[j].key) in Contents(t, text) && Contents(t, text)[text(t[j].key)].key == t[j].key
  {
    ContentsRepresented(t, text);
    forall s | s in Contents(t, text)
      ensures exists j: nat :: j < |t| && t[j].Full? && t[j].key == Contents(t, text)[s].key
    {
      var j :| 0 <= j < |t| && t[j].Full? && text(t[j].key) == s;
    }
  }

  /** What holds before each step of a walk in which none, or all, of the returned entries are removed. */
  ghost predicate WalkInv(t0: seq<Slot>, t: seq<Slot>, cur: Cursor, seen: seq<Ptr>, none: bool, all: bool) {
    && Walking(t0, t, cur, seen)
    && (none ==> t == t0 && AllBehind(t, seen, cur))
    && (all ==> AllGone(t, seen))
  }

  /** A number that falls whenever the cursor moves on in an unchanged table. */
  ghost function Left(t: seq<Slot>, cur: Cursor): (n: int) {
    2 * (|t| - cur.entry) + if 0 <= cur.entry < |t| && Changed(t[cur.entry], cur) then 1 else 0
  }

  lemma StepKeeps(t0: seq<Slot>, t: seq<Slot>, text: Ptr -> string, cur: Cursor, cur': Cursor, seen: seq<Ptr>,
                  none: bool, j: nat)
    requires WalkInv(t0, t, cur, seen, none, false) && Returned(t, cur, cur', j) && Unique(t, text)
    ensures WalkInv(t0, t, cur', seen + [t[j].key], none, false) && Left(t, cur') < Left(t, cur)
  {
    WalkReturns(t0, t, cur, cur', seen, j);
    if none { BehindStep(t, text, seen, cur, cur', j); }
  }

  lemma StepRemoves(t0: seq<Slot>, t: seq<Slot>, t': seq<Slot>, text: Ptr -> string, cur: Cursor, cur': Cursor,
                    seen: seq<Ptr>, all: bool, j: nat)
    requires WalkInv(t0, t, cur, seen, false, all) && Returned(t, cur, cur', j) && Unique(t, text)
    requires Removed(t, t', j)
    ensures WalkInv(t0, t', cur', seen + [t[j].key], false, all)
  {
    WalkReturns(t0, t, cur, cur', seen, j);
    WalkRemoves(t0, t, t', cur', seen + [t[j].key], text, j);
    if all { GoneStep(t, t', text, seen, j); }
  }

  lemma StepStops(t0: seq<Slot>, t: seq<Slot>, cur: Cursor, cur': Cursor, seen: seq<Ptr>, none: bool, all: bool)
    requires WalkInv(t0, t, cur, seen, none, all) && forall k: nat | k < |t| :: !Pending(t, cur, k)
    requires cur'.entry == |t|
    ensures WalkInv(t0, t, cur', seen, none, all) && cur'.entry == |t|
  {
    WalkStops(t0, t, cur, cur', seen);
    if none {
      forall i: nat ensures Behind(t, seen, cur'.entry, i) {
        assert Behind(t, seen, cur.entry, i);
      }
    }
  }

  ghost predicate Stored(m: map<string, Pair>, key: Ptr) {
    exists s :: s in m && m[s].key == key
  }

  /** What a completed walk has returned. */
  lemma WalkResult(t0: seq<Slot>, t: seq<Slot>, text: Ptr -> string, cur: Cursor, seen: seq<Ptr>, none: bool, all: bool)
    requires WalkInv(t0, t, cur, seen, none, all) && Unique(t0, text) && Unique(t, text) && cur.entry == |t|
    ensures forall s | s in Contents(t0, text) :: Contents(t0, text)[s].key in seen
    ensures all ==> Contents(t, text) == map[]
  {
    KeysStored(t0, text);
    forall s | s in Contents(t0, text) ensures Contents(t0, text)[s].key in seen {
      var j: nat :| j < |t0| && t0[j].Full? && t0[j].key == Contents(t0, text)[s].key;
      WalkEnds(t0, t, cur, seen, j);
    }
    if all { NothingLeft(t, text, cur, seen, t0); }
  }

  lemma OnlyStored(t0: seq<Slot>, t: seq<Slot>, text: Ptr -> string, cur: Cursor, seen: seq<Ptr>)
    requires Walking(t0, t, cur, seen) && Unique(t0, text)
    ensures forall i | 0 <= i < |seen| :: Stored(Contents(t0, text), seen[i])
  {
    KeysStored(t0, text);
    forall i: nat | i < |seen| ensures Stored(Contents(t0, text), seen[i]) {
      assert SeenFromStart(t0, seen, i);
    }
  }

  /** The keys of the entries that were to be removed. */
  ghost function RemovedTexts(text: Ptr -> string, seen: seq<Ptr>, removeIt: nat -> bool): set<string> {
    set k | 0 <= k < |seen| && removeIt(k) :: text(seen[k])
  }

  lemma RemovedMore(text: Ptr -> string, seen: seq<Ptr>, key: Ptr, removeIt: nat -> bool)
    ensures RemovedTexts(text, seen + [key], removeIt) ==
              RemovedTexts(text, seen, removeIt) + if removeIt(|seen|) then {text(key)} else {}
  {
    var more := seen + [key];
    forall s | s in RemovedTexts(text, more, removeIt)
      ensures s in RemovedTexts(text, seen, removeIt) + if removeIt(|seen|) then {text(key)} else {}
    {
      var k :| 0 <= k < |more| && removeIt(k) && text(more[k]) == s;
      if k < |seen| { assert more[k] == seen[k]; }
    }
    forall s | s in RemovedTexts(text, seen, removeIt) ensures s in RemovedTexts(text, more, removeIt) {
      var k :| 0 <= k < |seen| && removeIt(k) && text(seen[k]) == s;
      assert more[k] == seen[k];
    }
    if removeIt(|seen|) { assert more[|seen|] == key; }
  }

  /** One round of the loop below. */
  method Step(m: Map, it: Iterator, remove: bool, ghost t0: seq<Slot>, ghost seen: seq<Ptr>, ghost none: bool,
              ghost all: bool)
    returns (more: bool, key: Ptr)
    requires m.Valid() && it.hm == m && -1 <= it.entry <= m.capacity
    requires WalkInv(t0, m.entries[..], it.At(), seen, none, all)
    requires (none ==> !remove) && (all ==> remove)
    modifies m, m.entries, it
    ensures m.Valid() && it.hm == m && -1 <= it.entry <= old(m.capacity)
    ensures m.capacity == old(m.capacity) ==> m.entries == old(m.entries)
    ensures m.capacity != old(m.capacity) ==> more && !none && old(m.capacity) > INITIAL_CAPACITY
    ensures more && all ==> key !in seen
    ensures more ==> Stored(Contents(t0, m.text), key) || !Unique(t0, m.text)
    ensures m.capacity == old(m.capacity) ==>
              WalkInv(t0, m.entries[..], it.At(), if more then seen + [key] else seen, none, all)
    ensures m.capacity == old(m.capacity) && more ==>
              m.count < old(m.count)
              || (m.count == old(m.count) && Left(m.entries[..], it.At()) < old(Left(m.entries[..], it.At())))
    ensures !more ==> it.entry == m.capacity
    ensures m.Pairs() == old(m.Pairs()) - if more && remove then {m.text(key)} else {}
  {
    ghost var t, cur := m.entries[..], it.At();
    more := it.MoveOn();
    assert m.entries[..] == t && it.hm == m;
    key := 0;
    if !more {
      forall k: nat | k < |t| ensures !Pending(t, cur, k) { assert !Pending(m.entries[..], cur, k); }
      StepStops(t0, t, cur, it.At(), seen, none, all);
      return;
    }
    key := m.entries[it.entry].key;
    ghost var h: nat := it.entry;
    WalkReturns(t0, t, cur, it.At(), seen, h);
    if Unique(t0, m.text) {
      OnlyStored(t0, t, m.text, it.At(), seen + [key]);
      assert (seen + [key])[|seen|] == key;
    }
    if all { assert Gone(t, seen, h); }
    if remove {
      assert HeldAt(t, m.text, h, m.text(key)) && m.entries[..] == t;
      ContentsAt(t, m.text, h);
      var found := m.Remove(m.text(key));
      if m.entries.Length == |t| {
        assert Removed(t, m.entries[..], h);
        StepRemoves(t0, t, m.entries[..], m.text, cur, it.At(), seen, all, h);
      }
    } else {
      StepKeeps(t0, t, m.text, cur, it.At(), seen, none, h);
    }
  }

  /** What has been returned was stored at the start, and what was to be removed of it is gone. */
  ghost predicate Removes(t0: seq<Slot>, text: Ptr -> string, pairs: map<string, Pair>, seen: seq<Ptr>,
                          removeIt: nat -> bool) {
    && pairs == Contents(t0, text) - RemovedTexts(text, seen, removeIt)
    && forall i | 0 <= i < |seen| :: Stored(Contents(t0, text), seen[i])
  }

  /** One round, with the key returned noted. */
  method Round(m: Map, it: Iterator, removeIt: nat -> bool, ghost t0: seq<Slot>, seen0: seq<Ptr>, ghost none: bool,
               ghost all: bool)
    returns (more: bool, seen: seq<Ptr>)
    requires m.Valid() && it.hm == m && -1 <= it.entry <= m.capacity && Unique(t0, m.text)
    requires WalkInv(t0, m.entries[..], it.At(), seen0, none, all)
    requires (none ==> forall k: nat :: !removeIt(k)) && (all ==> forall k: nat :: removeIt(k))
    requires Removes(t0, m.text, m.Pairs(), seen0, removeIt)
    modifies m, m.entries, it
    ensures m.Valid() && it.hm == m && -1 <= it.entry <= old(m.capacity)
    ensures m.capacity == old(m.capacity) ==> m.entries == old(m.entries)
    ensures m.capacity != old(m.capacity) ==> more && !none && old(m.capacity) > INITIAL_CAPACITY
    ensures Removes(t0, m.text, m.Pairs(), seen, removeIt)
    ensures none || all ==> NoKeyTwice(seen)
    ensures m.capacity == old(m.capacity) ==> WalkInv(t0, m.entries[..], it.At(), seen, none, all)
    ensures m.capacity == old(m.capacity) && more ==>
              m.count < old(m.count)
              || (m.count == old(m.count) && Left(m.entries[..], it.At()) < old(Left(m.entries[..], it.At())))
    ensures !more ==> it.entry == m.capacity && seen == seen0
  {
    var key;
    more, key := Step(m, it, removeIt(|seen0|), t0, seen0, none, all);
    seen := seen0;
    if more {
      RemovedMore(m.text, seen0, key, removeIt);
      seen := seen0 + [key];
    }
  }

  /**
   The usual loop over a map, removing the k-th returned entry when `removeIt(k)` says so, and given
   up when a removal has resized the table. However it removes, it returns every entry that was stored
   at the start, and nothing else; it returns each exactly once if it removes none of them or all. In the end
   exactly the entries to be removed are gone.
   */
  method Walk(m: Map, removeIt: nat -> bool) returns (seen: seq<Ptr>, resized: bool)
    requires m.Valid()
    modifies m, m.entries
    ensures m.Valid()
    ensures !resized ==> forall s | s in old(m.Pairs()) :: old(m.Pairs())[s].key in seen
    ensures forall i | 0 <= i < |seen| :: Stored(old(m.Pairs()), seen[i])
    ensures (forall k: nat :: !removeIt(k)) ==> !resized && NoKeyTwice(seen) && m.Pairs() == old(m.Pairs())
    ensures (forall k: nat :: removeIt(k)) ==> NoKeyTwice(seen) && (!resized ==> m.Pairs() == map[])
    ensures resized ==> old(m.capacity) > INITIAL_CAPACITY
    ensures m.Pairs() == old(m.Pairs()) - RemovedTexts(m.text, seen, removeIt)
  {
    ghost var t0 := m.entries[..];
    ghost var none, all := forall k: nat :: !removeIt(k), forall k: nat :: removeIt(k);
    var it := new Iterator(m);
    var capacity := m.capacity;
    seen, resized := [], false;
    WalkStarts(t0);
    assert RemovedTexts(m.text, [], removeIt) == {};
    var more := true;
    while more
      invariant m.Valid() && fresh(it) && it.hm == m && -1 <= it.entry <= m.capacity
      invariant m.entries == old(m.entries) && m.capacity == capacity == old(m.capacity)
      invariant WalkInv(t0, m.entries[..], it.At(), seen, none, all)
      invariant Removes(t0, m.text, m.Pairs(), seen, removeIt)
      invariant !more ==> it.entry == m.capacity
      decreases more, m.count, Left(m.entries[..], it.At())
    {
      more, seen := Round(m, it, removeIt, t0, seen, none, all);
      if m.capacity != capacity {
        resized := true;
        return;
      }
    }
    WalkResult(t0, m.entries[..], m.text, it.At(), seen, none, all);
  }
}
