/**
 The slot table behind map.c, as a value: open addressing with linear probing and no tombstones.
 Capacities are powers of two, so `x & mask` is written `x % capacity`, and the distance from slot
 `a` to slot `b` going round the table, `(b - a) & mask`, is `Dist(a, b, capacity)`.
 */
module HashTable {
  /** The address of a key or a value. */
  type Ptr = nat

  datatype Pair = Pair(key: Ptr, val: Ptr)

  datatype Slot = Empty | Full(hash: nat, key: Ptr, val: Ptr)

  function Dist(a: nat, b: nat, n: nat): (d: nat)
    requires a < n && b < n
    ensures d < n
  {
    if a <= b then b - a else b + n - a
  }

  function Next(i: nat, n: nat): (j: nat)
    requires i < n
    ensures j < n
  {
    if i + 1 == n then 0 else i + 1
  }

  /** `(i + 1) & mask` */
  lemma NextIsMod(i: nat, n: nat)
    requires i < n
    ensures (i + 1) % n == Next(i, n)
  {
    if i + 1 == n {
      assert n % n == 0;
    }
  }

  /** `(b - a) & mask` */
  lemma DistIsMod(a: nat, b: nat, n: nat)
    requires a < n && b < n
    ensures Dist(a, b, n) == (b - a) % n
  {
  }

  /** A scan from `h` towards `e` that has not reached `e` yet. */
  lemma Advance(h: nat, i: nat, e: nat, n: nat)
    requires h < n && i < n && e < n && i != e && Dist(h, i, n) <= Dist(h, e, n)
    ensures Dist(h, Next(i, n), n) == Dist(h, i, n) + 1 <= Dist(h, e, n)
    ensures Dist(Next(i, n), e, n) < Dist(i, e, n)
  {
  }

  /** The slot where probing for `hash` starts: `hash & mask`. */
  function Home(hash: nat, n: nat): (h: nat)
    requires n > 0
    ensures h < n
  {
    if hash < n then hash else Home(hash - n, n)
  }

  lemma {:induction false} HomeIsMod(hash: nat, n: nat)
    requires n > 0
    ensures Home(hash, n) == hash % n
    decreases hash
  {
    if hash >= n {
      HomeIsMod(hash - n, n);
      assert hash == (hash - n) + n && hash / n == (hash - n) / n + 1 by {
        DropOne(hash - n, n);
      }
    }
  }

  lemma DropOne(x: nat, n: nat)
    requires n > 0
    ensures (x + n) / n == x / n + 1 && (x + n) % n == x % n
  {
    var q, r := x / n, x % n;
    assert x == q * n + r && x + n == (q + 1) * n + r;
    Divided(q + 1, r, n);
  }

  lemma Monotone(a: int, b: int, n: nat)
    ensures a <= b ==> a * n <= b * n
  {
  }

  lemma Divided(q: nat, r: nat, n: nat)
    requires r < n
    ensures (q * n + r) / n == q && (q * n + r) % n == r
  {
    var x := q * n + r;
    assert x == (x / n) * n + x % n;
    Monotone(x / n + 1, q, n);
    Monotone(q + 1, x / n, n);
  }

  /** Slot `k` lies on the probe path of the entry in slot `j`, strictly before it. */
  ghost predicate OnPath(t: seq<Slot>, j: nat, k: nat)
    requires j < |t| && k < |t| && t[j].Full?
  {
    Dist(Home(t[j].hash, |t|), k, |t|) < Dist(Home(t[j].hash, |t|), j, |t|)
  }

  /** The entry in slot `j` is not cut off from its home by an empty slot `k`. */
  ghost predicate Linked(t: seq<Slot>, j: nat, k: nat) {
    j < |t| && k < |t| && t[j].Full? && OnPath(t, j, k) ==> t[k].Full?
  }

  /** Probing from its home slot meets every entry before any empty slot. */
  ghost predicate Reachable(t: seq<Slot>) {
    forall j: nat, k: nat :: Linked(t, j, k)
  }

  ghost predicate Differ(t: seq<Slot>, text: Ptr -> string, j: nat, k: nat) {
    j < |t| && k < |t| && t[j].Full? && t[k].Full? && text(t[j].key) == text(t[k].key) ==> j == k
  }

  /** No two entries have the same key text. */
  ghost predicate Unique(t: seq<Slot>, text: Ptr -> string) {
    forall j: nat, k: nat :: Differ(t, text, j, k)
  }

  ghost predicate HashOk(t: seq<Slot>, text: Ptr -> string, hash: string -> nat, j: nat) {
    j < |t| && t[j].Full? ==> t[j].hash == hash(text(t[j].key))
  }

  /** The stored hash of an entry is the hash of its key. */
  ghost predicate Hashed(t: seq<Slot>, text: Ptr -> string, hash: string -> nat) {
    forall j: nat :: HashOk(t, text, hash, j)
  }

  /** The table stores exactly the pairs of `m`, under their texts. */
  ghost predicate Represents(t: seq<Slot>, text: Ptr -> string, m: map<string, Pair>) {
    && (forall j | 0 <= j < |t| && t[j].Full? ::
          text(t[j].key) in m && m[text(t[j].key)] == Pair(t[j].key, t[j].val))
    && (forall s | s in m :: exists j :: 0 <= j < |t| && t[j].Full? && text(t[j].key) == s)
  }

  /** A legal hash table. */
  ghost predicate Sound(t: seq<Slot>, text: Ptr -> string, hash: string -> nat) {
    Reachable(t) && Unique(t, text) && Hashed(t, text, hash)
  }

  /** The map a table stands for. */
  ghost function Contents(t: seq<Slot>, text: Ptr -> string): map<string, Pair> {
    if t == [] then map[]
    else if t[|t| - 1].Empty? then Contents(t[..|t| - 1], text)
    else Contents(t[..|t| - 1], text)[text(t[|t| - 1].key) := Pair(t[|t| - 1].key, t[|t| - 1].val)]
  }

  lemma {:induction false} ContentsRepresented(t: seq<Slot>, text: Ptr -> string)
    requires Unique(t, text)
    ensures Represents(t, text, Contents(t, text))
  {
    if t == [] {
    } else {
      var init, m := t[..|t| - 1], Contents(t, text);
      assert Unique(init, text) by {
        forall j: nat, k: nat ensures Differ(init, text, j, k) { assert Differ(t, text, j, k); }
      }
      ContentsRepresented(init, text);
      forall j | 0 <= j < |t| && t[j].Full?
        ensures text(t[j].key) in m && m[text(t[j].key)] == Pair(t[j].key, t[j].val)
      {
        if j < |init| { assert init[j] == t[j] && Differ(t, text, j, |t| - 1); }
      }
      forall s | s in m ensures exists j :: 0 <= j < |t| && t[j].Full? && text(t[j].key) == s {
        if s in Contents(init, text) {
          var j :| 0 <= j < |init| && init[j].Full? && text(init[j].key) == s;
          assert t[j] == init[j];
        } else {
          assert t[|t| - 1].Full?;
        }
      }
    }
  }

  lemma RepresentsOnlyOne(t: seq<Slot>, text: Ptr -> string, m: map<string, Pair>)
    requires Unique(t, text) && Represents(t, text, m)
    ensures m == Contents(t, text)
  {
    ContentsRepresented(t, text);
    var m' := Contents(t, text);
    forall s | s in m ensures s in m' && m[s] == m'[s] {
      var j :| 0 <= j < |t| && t[j].Full? && text(t[j].key) == s;
    }
    forall s | s in m' ensures s in m {
      var j :| 0 <= j < |t| && t[j].Full? && text(t[j].key) == s;
    }
  }

  lemma ContentsAt(t: seq<Slot>, text: Ptr -> string, i: nat)
    requires Unique(t, text) && i < |t| && t[i].Full?
    ensures text(t[i].key) in Contents(t, text) && Contents(t, text)[text(t[i].key)] == Pair(t[i].key, t[i].val)
  {
    ContentsRepresented(t, text);
  }

  /** The stored pairs, each as often as it is stored. */
  ghost function Entries(t: seq<Slot>): multiset<Pair> {
    if t == [] then multiset{} else Entries(t[..|t| - 1]) + One(t[|t| - 1])
  }

  ghost function One(s: Slot): multiset<Pair> {
    if s.Full? then multiset{Pair(s.key, s.val)} else multiset{}
  }

  /** The number of entries. */
  ghost function Used(t: seq<Slot>): nat {
    if t == [] then 0 else Used(t[..|t| - 1]) + if t[|t| - 1].Full? then 1 else 0
  }

  lemma {:induction false} UsedSet(t: seq<Slot>, i: nat, s: Slot)
    requires i < |t|
    ensures Used(t[i := s]) == Used(t) - (if t[i].Full? then 1 else 0) + if s.Full? then 1 else 0
  {
    var t' := t[i := s];
    if i == |t| - 1 {
      assert t'[..i] == t[..i];
    } else {
      UsedSet(t[..|t| - 1], i, s);
      assert t'[..|t| - 1] == t[..|t| - 1][i := s];
    }
  }

  lemma {:induction false} UsedPrefix(t: seq<Slot>, p: nat)
    requires p < |t|
    ensures Used(t[..p + 1]) == Used(t[..p]) + if t[p].Full? then 1 else 0
    ensures Used(t[..p + 1]) <= Used(t)
    decreases |t|
  {
    assert t[..p + 1][..p] == t[..p];
    if p + 1 == |t| {
      assert t[..p + 1] == t;
    } else {
      assert t[..|t| - 1][..p + 1] == t[..p + 1];
      UsedPrefix(t[..|t| - 1], p);
    }
  }

  lemma EntriesSet(t: seq<Slot>, i: nat, s: Slot)
    requires i < |t|
    ensures One(t[i]) <= Entries(t)
    ensures Entries(t[i := s]) == Entries(t) - One(t[i]) + One(s)
  {
    EntriesSwap(t, i, s);
    EntriesSwap(t, i, Empty);
    Exchanged(Entries(t[i := s]), Entries(t), One(t[i]), One(s), Entries(t[i := Empty]));
  }

  lemma Exchanged<T>(e': multiset<T>, e: multiset<T>, o: multiset<T>, n: multiset<T>, left: multiset<T>)
    ensures e' + o == e + n && left + o == e ==> o <= e && e' == e - o + n
  {
    if e' + o == e + n && left + o == e {
      assert forall x :: e'[x] + o[x] == (e' + o)[x] == (e + n)[x];
      assert forall x :: left[x] + o[x] == (left + o)[x];
    }
  }

  lemma {:induction false} EntriesSwap(t: seq<Slot>, i: nat, s: Slot)
    requires i < |t|
    ensures Entries(t[i := s]) + One(t[i]) == Entries(t) + One(s)
  {
    var h, n := t[..|t| - 1], |t| - 1;
    UpdateParts(t, i, s, n);
    EntriesLast(t, h, t[n]);
    if i == n {
      EntriesLast(t[i := s], h, s);
      ThreeSums(Entries(h), One(s), One(t[i]));
    } else {
      EntriesSwap(h, i, s);
      EntriesLast(t[i := s], h[i := s], t[n]);
      FourSums(Entries(h[i := s]), One(t[i]), Entries(h), One(s), One(t[n]));
    }
  }

  lemma UpdateParts(t: seq<Slot>, i: nat, s: Slot, n: nat)
    requires i < |t| == n + 1
    ensures t == t[..n] + [t[n]] && t[i := s] == if i == n then t[..n] + [s] else t[..n][i := s] + [t[n]]
    ensures i < n ==> t[..n][i] == t[i]
  {
  }

  lemma EntriesLast(t: seq<Slot>, h: seq<Slot>, last: Slot)
    requires t == h + [last]
    ensures Entries(t) == Entries(h) + One(last)
  {
    assert t[..|t| - 1] == h;
  }

  lemma ThreeSums<T>(a: multiset<T>, b: multiset<T>, c: multiset<T>)
    ensures (a + b) + c == (a + c) + b
  {
  }

  lemma FourSums<T>(a: multiset<T>, b: multiset<T>, c: multiset<T>, d: multiset<T>, l: multiset<T>)
    ensures a + b == c + d ==> (a + l) + b == (c + l) + d
  {
    assert (a + l) + b == (a + b) + l;
    assert (c + l) + d == (c + d) + l;
  }

  lemma EntriesPrefix(t: seq<Slot>, p: nat)
    requires p < |t|
    ensures Entries(t[..p + 1]) == Entries(t[..p]) + One(t[p])
  {
    assert t[..p + 1][..p] == t[..p];
  }

  lemma {:induction false} EntriesEmpty(t: seq<Slot>)
    requires forall j | 0 <= j < |t| :: t[j].Empty?
    ensures Entries(t) == multiset{} && Used(t) == 0
  {
    if t == [] {
    } else {
      EntriesEmpty(t[..|t| - 1]);
    }
  }

  /** A table with fewer entries than slots has an empty slot. */
  lemma {:induction false} HasEmpty(t: seq<Slot>) returns (e: nat)
    requires Used(t) < |t|
    ensures e < |t| && t[e].Empty?
  {
    if t[|t| - 1].Empty? {
      e := |t| - 1;
    } else {
      e := HasEmpty(t[..|t| - 1]);
    }
  }

  ghost predicate BalancedAt(given: multiset<Pair>, freed: seq<Pair>, t: seq<Slot>, pair: Pair) {
    given[pair] == multiset(freed)[pair] + Entries(t)[pair]
  }

  /** Every pair given to the map is either stored or has been freed, as many times as it was given. */
  ghost predicate Balanced(given: multiset<Pair>, freed: seq<Pair>, t: seq<Slot>) {
    forall pair: Pair :: BalancedAt(given, freed, t, pair)
  }

  /** A pair goes into slot `i`; the pair it replaces, if any, is freed. */
  lemma PutBalance(given: multiset<Pair>, freed: seq<Pair>, t: seq<Slot>, i: nat, e: Slot)
    requires i < |t| && e.Full? && Balanced(given, freed, t)
    ensures Balanced(given + multiset{Pair(e.key, e.val)}, FreedBy(freed, t[i]), t[i := e])
  {
    var t', freed' := t[i := e], FreedBy(freed, t[i]);
    EntriesSet(t, i, e);
    forall pair: Pair ensures BalancedAt(given + multiset{Pair(e.key, e.val)}, freed', t', pair) {
      assert BalancedAt(given, freed, t, pair);
    }
  }

  /** The free callback is called for the pair of a slot, if it has one. */
  ghost function FreedBy(freed: seq<Pair>, s: Slot): seq<Pair> {
    if s.Full? then freed + [Pair(s.key, s.val)] else freed
  }

  /** The pair of slot `h` is freed and no longer stored. */
  lemma RemoveBalance(given: multiset<Pair>, freed: seq<Pair>, t: seq<Slot>, c: seq<Slot>, h: nat)
    requires h < |t| && t[h].Full? && Balanced(given, freed, t)
    requires Entries(c) == Entries(t) - One(t[h])
    ensures Balanced(given, FreedBy(freed, t[h]), c)
  {
    EntriesSet(t, h, Empty);
    forall pair: Pair ensures BalancedAt(given, FreedBy(freed, t[h]), c, pair) {
      assert BalancedAt(given, freed, t, pair);
    }
  }

  lemma UnionAssoc(a: multiset<Pair>, b: multiset<Pair>, c: multiset<Pair>)
    ensures (a + b) + c == a + (b + c)
  {
  }

  lemma FreedOne(freed: seq<Pair>, s: Slot)
    ensures multiset(FreedBy(freed, s)) == multiset(freed) + One(s)
  {
  }

  lemma BalanceMoves(given: multiset<Pair>, freed: seq<Pair>, t: seq<Slot>, t': seq<Slot>)
    requires Balanced(given, freed, t) && Entries(t) == Entries(t')
    ensures Balanced(given, freed, t')
  {
    forall pair: Pair ensures BalancedAt(given, freed, t', pair) {
      assert BalancedAt(given, freed, t, pair);
    }
  }

  /** Pairs freed while walking over the first `p` slots. */
  ghost function FreedUpTo(freed: seq<Pair>, t: seq<Slot>, p: nat): (r: seq<Pair>)
    requires p <= |t|
  {
    if p == 0 then freed else FreedBy(FreedUpTo(freed, t, p - 1), t[p - 1])
  }

  lemma {:induction false} FreedAll(freed: seq<Pair>, t: seq<Slot>, p: nat)
    requires p <= |t|
    ensures multiset(FreedUpTo(freed, t, p)) == multiset(freed) + Entries(t[..p])
    ensures freed <= FreedUpTo(freed, t, p)
  {
    if p > 0 {
      FreedAll(freed, t, p - 1);
      FreedOne(FreedUpTo(freed, t, p - 1), t[p - 1]);
      assert Entries(t[..p]) == Entries(t[..p - 1]) + One(t[p - 1]) by { EntriesPrefix(t, p - 1); }
      UnionAssoc(multiset(freed), Entries(t[..p - 1]), One(t[p - 1]));
    }
  }

  lemma BalanceEnds(given: multiset<Pair>, freed: seq<Pair>, t: seq<Slot>)
    requires Balanced(given, freed, t)
    ensures multiset(FreedUpTo(freed, t, |t|)) == given
  {
    FreedAll(freed, t, |t|);
    assert t[..|t|] == t;
    forall pair: Pair ensures multiset(FreedUpTo(freed, t, |t|))[pair] == given[pair] {
      assert BalancedAt(given, freed, t, pair);
    }
  }

  // ---------------------------------------------------------------- probing

  /** Probing for `hash` meets no empty slot before `i`. */
  ghost predicate FullBefore(t: seq<Slot>, hash: nat, i: nat)
    requires i < |t|
  {
    forall k | 0 <= k < |t| && Dist(Home(hash, |t|), k, |t|) < Dist(Home(hash, |t|), i, |t|) :: t[k].Full?
  }

  /** `i` has been reached by probing for `hash` without meeting an empty slot or `key`. */
  ghost predicate Probed(t: seq<Slot>, text: Ptr -> string, s: string, hash: nat, i: nat)
    requires i < |t|
  {
    forall k | 0 <= k < |t| && Dist(Home(hash, |t|), k, |t|) < Dist(Home(hash, |t|), i, |t|) ::
      t[k].Full? && text(t[k].key) != s
  }

  /** The probe moves on from a full slot; `e` is some empty slot, which it approaches. */
  lemma FullStep(t: seq<Slot>, hash: nat, i: nat, e: nat)
    requires i < |t| && e < |t| && t[e].Empty? && t[i].Full? && FullBefore(t, hash, i)
    ensures FullBefore(t, hash, Next(i, |t|)) && Dist(Next(i, |t|), e, |t|) < Dist(i, e, |t|)
    ensures Dist(Home(hash, |t|), Next(i, |t|), |t|) == Dist(Home(hash, |t|), i, |t|) + 1
  {
    assert !(Dist(Home(hash, |t|), e, |t|) < Dist(Home(hash, |t|), i, |t|));
  }

  lemma ProbeStep(t: seq<Slot>, text: Ptr -> string, s: string, hash: nat, i: nat, e: nat)
    requires i < |t| && e < |t| && t[e].Empty? && t[i].Full? && text(t[i].key) != s
    requires Probed(t, text, s, hash, i)
    ensures Probed(t, text, s, hash, Next(i, |t|)) && Dist(Next(i, |t|), e, |t|) < Dist(i, e, |t|)
  {
    FullStep(t, hash, i, e);
  }

  /** An empty slot ends the search: the key is not stored. */
  lemma Absent(t: seq<Slot>, text: Ptr -> string, hash: string -> nat, s: string, i: nat)
    requires i < |t| && t[i].Empty? && Reachable(t) && Hashed(t, text, hash)
    requires Unique(t, text) && Probed(t, text, s, hash(s), i)
    ensures s !in Contents(t, text)
  {
    forall j: nat | j < |t| && t[j].Full? ensures text(t[j].key) != s {
      assert j != i;
      assert HashOk(t, text, hash, j) && Linked(t, j, i);
    }
    ContentsRepresented(t, text);
  }

  /** Putting an entry into the slot where the search for it ended keeps every entry reachable. */
  lemma Claim(t: seq<Slot>, i: nat, e: Slot)
    requires i < |t| && e.Full? && (t[i].Full? ==> t[i].hash == e.hash) && Reachable(t)
    requires FullBefore(t, e.hash, i)
    ensures Reachable(t[i := e])
  {
    var t' := t[i := e];
    forall j: nat, k: nat ensures Linked(t', j, k) {
      assert Linked(t, j, k);
    }
  }

  // ---------------------------------------------------------------- backward shift

  /**
   State of the backward shift: `c` is the table with the hole emptied, slots strictly between the
   hole and `i` have been scanned, and only unscanned entries may still need the hole.
   */
  ghost predicate Shifting(c: seq<Slot>, hole: nat, i: nat) {
    && hole < |c| && i < |c| && hole != i && c[hole].Empty?
    && (forall k: nat :: Scanned(c, hole, i, k))
    && (forall j: nat, k: nat :: k != hole ==> Linked(c, j, k))
    && (forall j: nat :: NeededLater(c, hole, i, j))
  }

  ghost predicate Scanned(c: seq<Slot>, hole: nat, i: nat, k: nat)
    requires hole < |c| && i < |c|
  {
    k < |c| && 0 < Dist(hole, k, |c|) < Dist(hole, i, |c|) ==> c[k].Full?
  }

  ghost predicate NeededLater(c: seq<Slot>, hole: nat, i: nat, j: nat)
    requires hole < |c| && i < |c|
  {
    j < |c| && c[j].Full? && OnPath(c, j, hole) ==> Dist(hole, i, |c|) <= Dist(hole, j, |c|)
  }

  lemma ShiftBegins(t: seq<Slot>, h: nat)
    requires h < |t| && 1 < |t| && Reachable(t)
    ensures Shifting(t[h := Empty], h, Next(h, |t|))
  {
    var c := t[h := Empty];
    forall j: nat, k: nat | k != h ensures Linked(c, j, k) {
      assert Linked(t, j, k);
    }
  }

  /** The hole is on the probe path of the entry in slot `i`: the entry moves into the hole. */
  lemma ShiftMoves(c: seq<Slot>, hole: nat, i: nat)
    requires Shifting(c, hole, i) && c[i].Full? && OnPath(c, i, hole) && Next(i, |c|) != hole
    ensures Shifting(c[hole := c[i]][i := Empty], i, Next(i, |c|))
  {
    var c' := c[hole := c[i]][i := Empty];
    forall j: nat, k: nat | k != i ensures Linked(c', j, k) {
      if k != hole {
        assert Linked(c, if j == hole then i else j, k);
      }
    }
  }

  /** Moving any other entry into the hole would leave it behind the slot it has emptied, cut off from its home. */
  lemma OnlySoMoves(c: seq<Slot>, hole: nat, i: nat)
    requires Shifting(c, hole, i) && c[i].Full? && hole != i
    ensures Reachable(c[hole := c[i]][i := Empty]) ==> OnPath(c, i, hole)
  {
    var c' := c[hole := c[i]][i := Empty];
    if Reachable(c') {
      assert Linked(c', hole, i);
    }
  }

  lemma ShiftSkips(c: seq<Slot>, hole: nat, i: nat)
    requires Shifting(c, hole, i) && c[i].Full? && !OnPath(c, i, hole) && Next(i, |c|) != hole
    ensures Shifting(c, hole, Next(i, |c|))
  {
    forall k: nat ensures Scanned(c, hole, Next(i, |c|), k) {
      assert Scanned(c, hole, i, k);
    }
    forall j: nat ensures NeededLater(c, hole, Next(i, |c|), j) {
      assert NeededLater(c, hole, i, j);
    }
  }

  lemma ShiftEnds(c: seq<Slot>, hole: nat, i: nat)
    requires Shifting(c, hole, i) && c[i].Empty?
    ensures Reachable(c)
  {
    forall j: nat, k: nat ensures Linked(c, j, k) {
      assert NeededLater(c, hole, i, j) && Linked(c, j, i);
    }
  }

  /**
   What removing the entry of slot `h` does to the table: every other entry is still stored, and
   entries have only moved towards `h`, going backwards.
   */
  ghost predicate Removed(t: seq<Slot>, t': seq<Slot>, h: nat)
    requires h < |t|
  {
    && |t'| == |t|
    && (forall j: nat :: Kept(t, t', h, j))
    && (forall j': nat :: Traced(t, t', h, j'))
  }

  ghost predicate HeldAt(t: seq<Slot>, text: Ptr -> string, h: nat, key: string) {
    h < |t| && t[h].Full? && text(t[h].key) == key
  }

  ghost predicate Kept(t: seq<Slot>, t': seq<Slot>, h: nat, j: nat) {
    j < |t| && t[j].Full? && j != h ==> t[j] in t'
  }

  ghost predicate Traced(t: seq<Slot>, t': seq<Slot>, h: nat, j': nat)
    requires h < |t| == |t'|
  {
    j' < |t'| && t'[j'].Full? ==> exists j :: CameFrom(t, t', h, j, j')
  }

  ghost predicate CameFrom(t: seq<Slot>, t': seq<Slot>, h: nat, j: nat, j': nat)
    requires h < |t| == |t'|
  {
    j < |t| && j' < |t'| && j != h && t[j] == t'[j'] && Dist(h, j', |t|) <= Dist(h, j, |t|)
  }

  lemma MoveEntry(c: seq<Slot>, hole: nat, i: nat)
    requires hole < |c| && i < |c| && hole != i && c[hole].Empty?
    ensures Entries(c[hole := c[i]][i := Empty]) == Entries(c)
    ensures Used(c[hole := c[i]][i := Empty]) == Used(c)
  {
    UsedSet(c, hole, c[i]);
    UsedSet(c[hole := c[i]], i, Empty);
    EntriesSet(c, hole, c[i]);
    EntriesSet(c[hole := c[i]], i, Empty);
  }

  /** Provenance kept during the shift: where each entry came from, no two from the same slot. */
  ghost predicate Moved(t: seq<Slot>, c: seq<Slot>, h: nat, from: seq<nat>)
    requires h < |t|
  {
    && |c| == |from| == |t|
    && (forall k: nat :: Tracked(t, c, h, from, k))
    && (forall k: nat, l: nat :: Separate(c, from, k, l))
  }

  ghost predicate Tracked(t: seq<Slot>, c: seq<Slot>, h: nat, from: seq<nat>, k: nat)
    requires h < |t| == |c| == |from|
  {
    k < |c| && c[k].Full? ==> CameFrom(t, c, h, from[k], k)
  }

  ghost predicate Separate(c: seq<Slot>, from: seq<nat>, k: nat, l: nat)
    requires |c| == |from|
  {
    k < |c| && l < |c| && c[k].Full? && c[l].Full? && from[k] == from[l] ==> k == l
  }

  lemma MovedStart(t: seq<Slot>, h: nat) returns (from: seq<nat>)
    requires h < |t|
    ensures Moved(t, t[h := Empty], h, from)
  {
    from := seq(|t|, k => k);
  }

  lemma MovedStep(t: seq<Slot>, c: seq<Slot>, h: nat, from: seq<nat>, hole: nat, i: nat)
    requires h < |t| && Moved(t, c, h, from)
    requires hole < |t| && i < |t| && hole != i && c[hole].Empty? && c[i].Full?
    requires Dist(h, hole, |t|) <= Dist(h, i, |t|)
    ensures Moved(t, c[hole := c[i]][i := Empty], h, from[hole := from[i]])
  {
    var c', from' := c[hole := c[i]][i := Empty], from[hole := from[i]];
    assert Tracked(t, c, h, from, i);
    forall k: nat ensures Tracked(t, c', h, from', k) {
      assert Tracked(t, c, h, from, k);
    }
    forall k: nat, l: nat ensures Separate(c', from', k, l) {
      assert Separate(c, from, k, l) && Separate(c, from, i, l) && Separate(c, from, k, i);
    }
  }

  lemma {:induction false} EntriesHas(t: seq<Slot>, i: nat)
    requires i < |t| && t[i].Full?
    ensures Pair(t[i].key, t[i].val) in Entries(t)
  {
    EntriesSet(t, i, Empty);
    assert Pair(t[i].key, t[i].val) in One(t[i]);
  }

  lemma {:induction false} EntriesOf(t: seq<Slot>, pair: Pair) returns (i: nat)
    requires pair in Entries(t)
    ensures i < |t| && t[i].Full? && Pair(t[i].key, t[i].val) == pair
  {
    if pair in One(t[|t| - 1]) {
      i := |t| - 1;
    } else {
      i := EntriesOf(t[..|t| - 1], pair);
    }
  }

  /** As no pair but that of slot `h` is lost, every other entry is still there. */
  lemma NothingElseLost(t: seq<Slot>, c: seq<Slot>, text: Ptr -> string, h: nat, from: seq<nat>, j: nat)
    requires h < |t| && t[h].Full? && Moved(t, c, h, from) && Unique(t, text)
    requires Entries(c) == Entries(t) - One(t[h])
    requires j < |t| && t[j].Full? && j != h
    ensures t[j] in c
  {
    var pair := Pair(t[j].key, t[j].val);
    EntriesHas(t, j);
    assert Differ(t, text, j, h);
    assert pair !in One(t[h]);
    var k := EntriesOf(c, pair);
    assert Tracked(t, c, h, from, k) && Differ(t, text, from[k], j);
    assert c[k] in c;
  }

  // ---------------------------------------------------------------- what the changes mean for the stored map

  /** Writing an entry into the slot where the search for its key ended. */
  lemma PutAt(t: seq<Slot>, text: Ptr -> string, hash: string -> nat, i: nat, key: Ptr, val: Ptr)
    requires i < |t| && Sound(t, text, hash)
    requires FullBefore(t, hash(text(key)), i)
    requires t[i].Empty? ==> text(key) !in Contents(t, text)
    requires t[i].Full? ==> text(t[i].key) == text(key)
    ensures var t' := t[i := Full(hash(text(key)), key, val)];
      && Sound(t', text, hash)
      && Contents(t', text) == Contents(t, text)[text(key) := Pair(key, val)]
      && Used(t') == Used(t) + if t[i].Empty? then 1 else 0
    ensures t[i].Full? ==> text(key) in Contents(t, text) && Contents(t, text)[text(key)] == Pair(t[i].key, t[i].val)
  {
    var e := Full(hash(text(key)), key, val);
    if t[i].Full? { assert HashOk(t, text, hash, i); }
    Claim(t, i, e);
    var t' := t[i := e];
    forall j: nat ensures HashOk(t', text, hash, j) { assert HashOk(t, text, hash, j); }
    UsedSet(t, i, e);
    ContentsRepresented(t, text);
    PutContents(t, text, Contents(t, text), i, e);
    RepresentsOnlyOne(t[i := e], text, Contents(t, text)[text(key) := Pair(key, val)]);
  }

  lemma PutContents(t: seq<Slot>, text: Ptr -> string, m: map<string, Pair>, i: nat, e: Slot)
    requires i < |t| && e.Full? && Unique(t, text) && Represents(t, text, m)
    requires t[i].Empty? ==> text(e.key) !in m
    requires t[i].Full? ==> text(t[i].key) == text(e.key)
    ensures Unique(t[i := e], text) && Represents(t[i := e], text, m[text(e.key) := Pair(e.key, e.val)])
  {
    var t', m' := t[i := e], m[text(e.key) := Pair(e.key, e.val)];
    forall j: nat | j < |t| && t[j].Full? && j != i ensures text(t[j].key) != text(e.key) {
      assert Differ(t, text, i, j);
    }
    forall j: nat, k: nat ensures Differ(t', text, j, k) {
      assert Differ(t, text, j, k);
    }
    forall s | s in m' ensures exists j :: 0 <= j < |t'| && t'[j].Full? && text(t'[j].key) == s {
      if s == text(e.key) {
        assert t'[i] == e;
      } else {
        var j :| 0 <= j < |t| && t[j].Full? && text(t[j].key) == s;
        assert t'[j] == t[j];
      }
    }
  }

  lemma Taken(t: seq<Slot>, c: seq<Slot>, text: Ptr -> string, hash: string -> nat,
                    m: map<string, Pair>, h: nat, from: seq<nat>)
    requires h < |t| && t[h].Full? && Moved(t, c, h, from)
    requires Entries(c) == Entries(t) - One(t[h])
    requires Unique(t, text) && Hashed(t, text, hash) && Represents(t, text, m)
    ensures Unique(c, text) && Hashed(c, text, hash) && Represents(c, text, m - {text(t[h].key)})
  {
    var m' := m - {text(t[h].key)};
    forall j: nat, k: nat ensures Differ(c, text, j, k) {
      if j < |c| && k < |c| && c[j].Full? && c[k].Full? {
        assert Tracked(t, c, h, from, j) && Tracked(t, c, h, from, k);
        assert Separate(c, from, j, k) && Differ(t, text, from[j], from[k]);
      }
    }
    forall j: nat ensures HashOk(c, text, hash, j) {
      if j < |c| && c[j].Full? {
        assert Tracked(t, c, h, from, j) && HashOk(t, text, hash, from[j]);
      }
    }
    forall j: nat | j < |c| && c[j].Full? ensures text(c[j].key) in m'
    && m'[text(c[j].key)] == Pair(c[j].key, c[j].val) {
      assert Tracked(t, c, h, from, j) && Differ(t, text, from[j], h);
    }
    forall s | s in m' ensures exists j :: 0 <= j < |c| && c[j].Full? && text(c[j].key) == s {
      var j :| 0 <= j < |t| && t[j].Full? && text(t[j].key) == s;
      NothingElseLost(t, c, text, h, from, j);
      var k :| 0 <= k < |c| && c[k] == t[j];
    }
  }

  /** The end of the backward shift. */
  lemma RemoveAt(t: seq<Slot>, c: seq<Slot>, text: Ptr -> string, hash: string -> nat,
                       h: nat, from: seq<nat>, hole: nat, i: nat)
    requires h < |t| && t[h].Full? && Moved(t, c, h, from) && Sound(t, text, hash)
    requires Entries(c) == Entries(t) - One(t[h])
    requires Shifting(c, hole, i) && c[i].Empty?
    ensures Sound(c, text, hash) && Contents(c, text) == Contents(t, text) - {text(t[h].key)} && Removed(t, c, h)
  {
    ShiftEnds(c, hole, i);
    forall j: nat ensures Kept(t, c, h, j) {
      if j < |t| && t[j].Full? && j != h { NothingElseLost(t, c, text, h, from, j); }
    }
    forall k: nat ensures Traced(t, c, h, k) {
      assert Tracked(t, c, h, from, k);
    }
    ContentsRepresented(t, text);
    Taken(t, c, text, hash, Contents(t, text), h, from);
    RepresentsOnlyOne(c, text, Contents(t, text) - {text(t[h].key)});
  }

  ghost predicate Placed(done: seq<Slot>, t': seq<Slot>, q: nat) {
    q < |done| && done[q].Full? ==> done[q] in t'
  }

  ghost predicate PlacedFrom(done: seq<Slot>, t': seq<Slot>, j: nat) {
    j < |t'| && t'[j].Full? ==> t'[j] in done
  }

  /** `t'` holds the entries of the slots `done`, and no others. */
  ghost predicate Rehashed(done: seq<Slot>, t': seq<Slot>) {
    && (forall q: nat :: Placed(done, t', q))
    && (forall j: nat :: PlacedFrom(done, t', j))
  }

  /** State of _map_resize after `p` slots of `t` have been moved to `t'`. */
  ghost predicate Moving(t: seq<Slot>, text: Ptr -> string, p: nat, t': seq<Slot>)
    requires p <= |t|
  {
    && Rehashed(t[..p], t') && Unique(t', text) && Reachable(t')
    && Entries(t') == Entries(t[..p]) && Used(t') == Used(t[..p]) <= Used(t)
  }

  lemma MovingStarts(t: seq<Slot>, text: Ptr -> string, t': seq<Slot>)
    requires forall j | 0 <= j < |t'| :: t'[j].Empty?
    ensures Moving(t, text, 0, t')
  {
    EntriesEmpty(t');
    EntriesEmpty(t[..0]);
  }

  lemma MovingSkips(t: seq<Slot>, text: Ptr -> string, p: nat, t': seq<Slot>)
    requires p < |t| && t[p].Empty? && Moving(t, text, p, t')
    ensures Moving(t, text, p + 1, t')
  {
    var before, after := t[..p], t[..p + 1];
    assert after == before + [t[p]];
    EntriesPrefix(t, p);
    UsedPrefix(t, p);
    forall q: nat ensures Placed(after, t', q) { assert Placed(before, t', q); }
    forall j: nat ensures PlacedFrom(after, t', j) { assert PlacedFrom(before, t', j); }
  }

  /** The entry of slot `p` is written to `i`, the first empty slot on its probe path. */
  lemma MovingStep(t: seq<Slot>, text: Ptr -> string, p: nat, t': seq<Slot>, i: nat)
    requires p < |t| && t[p].Full? && Moving(t, text, p, t') && Unique(t, text)
    requires i < |t'| && t'[i].Empty? && FullBefore(t', t[p].hash, i)
    ensures Moving(t, text, p + 1, t'[i := t[p]])
  {
    var before, after, t2 := t[..p], t[..p + 1], t'[i := t[p]];
    assert after == before + [t[p]];
    EntriesPrefix(t, p);
    UsedPrefix(t, p);
    EntriesSet(t', i, t[p]);
    UsedSet(t', i, t[p]);
    Claim(t', i, t[p]);
    RehashStep(before, t', t[p], i);
    forall j: nat | j < |t'| && t'[j].Full? ensures text(t'[j].key) != text(t[p].key) {
      assert PlacedFrom(before, t', j);
      var q :| 0 <= q < p && t[q] == t'[j];
      assert Differ(t, text, q, p);
    }
    forall j: nat, k: nat ensures Differ(t2, text, j, k) {
      assert Differ(t', text, j, k);
    }
  }

  lemma RehashStep(done: seq<Slot>, t': seq<Slot>, e: Slot, i: nat)
    requires Rehashed(done, t') && i < |t'| && t'[i].Empty? && e.Full?
    ensures Rehashed(done + [e], t'[i := e])
  {
    var done2, t2 := done + [e], t'[i := e];
    assert t2[i] == e && done2[|done|] == e;
    forall q: nat ensures Placed(done2, t2, q) {
      assert Placed(done, t', q);
      if q < |done| && done[q].Full? {
        var j :| 0 <= j < |t'| && t'[j] == done[q];
        assert t2[j] == done[q];
      }
    }
    forall j: nat ensures PlacedFrom(done2, t2, j) {
      assert PlacedFrom(done, t', j);
    }
  }

  lemma MovingEnds(t: seq<Slot>, text: Ptr -> string, hash: string -> nat, t': seq<Slot>)
    requires Moving(t, text, |t|, t') && Sound(t, text, hash)
    ensures Sound(t', text, hash) && Contents(t', text) == Contents(t, text)
    ensures Entries(t') == Entries(t) && Used(t') == Used(t)
  {
    assert t[..|t|] == t;
    var m := Contents(t, text);
    ContentsRepresented(t, text);
    forall s | s in m ensures exists j :: 0 <= j < |t'| && t'[j].Full? && text(t'[j].key) == s {
      var q :| 0 <= q < |t| && t[q].Full? && text(t[q].key) == s;
      assert Placed(t, t', q);
    }
    forall j: nat | j < |t'| && t'[j].Full?
      ensures text(t'[j].key) in m && m[text(t'[j].key)] == Pair(t'[j].key, t'[j].val) && HashOk(t', text, hash, j)
    {
      assert PlacedFrom(t, t', j);
      var q :| 0 <= q < |t| && t[q] == t'[j];
      assert HashOk(t, text, hash, q);
    }
    forall j: nat ensures HashOk(t', text, hash, j) {
      if j < |t'| && t'[j].Full? { assert HashOk(t', text, hash, j); }
    }
    RepresentsOnlyOne(t', text, m);
  }

  // ---------------------------------------------------------------- the backward shift as a whole

  /**
   State of the backward shift that removes the entry of slot `h` of `t`: the slots are `a`, of which
   the hole counts as empty; the scan, which started at `h`, is at slot `i`; `e` is some empty slot,
   which the scan does not pass.
   */
  ghost predicate Removing(t: seq<Slot>, a: seq<Slot>, h: nat, from: seq<nat>, hole: nat, i: nat, e: nat)
    requires h < |t|
  {
    && |a| == |t| && hole < |a| && Shifting(a[hole := Empty], hole, i) && Moved(t, a[hole := Empty], h, from)
    && e < |t| && a[hole := Empty][e].Empty? && Dist(h, hole, |t|) < Dist(h, i, |t|) <= Dist(h, e, |t|)
    && Entries(a[hole := Empty]) == Entries(t) - One(t[h]) && Used(a[hole := Empty]) == Used(t) - 1
  }

  lemma RemovingStarts(t: seq<Slot>, h: nat, e: nat) returns (from: seq<nat>)
    requires h < |t| && 1 < |t| && t[h].Full? && Reachable(t) && e < |t| && t[e].Empty?
    ensures Removing(t, t, h, from, h, Next(h, |t|), e)
  {
    from := MovedStart(t, h);
    EntriesSet(t, h, Empty);
    UsedSet(t, h, Empty);
    ShiftBegins(t, h);
    Advance(h, h, e, |t|);
  }

  lemma RemovingMoves(t: seq<Slot>, a: seq<Slot>, h: nat, from: seq<nat>, hole: nat, i: nat, e: nat)
                      returns (from': seq<nat>)
    requires h < |t| && Removing(t, a, h, from, hole, i, e) && a[i].Full?
    requires Dist(Home(a[i].hash, |a|), hole, |a|) <= Dist(Home(a[i].hash, |a|), i, |a|)
    ensures Removing(t, a[hole := a[i]], h, from', i, Next(i, |t|), e)
    ensures Dist(Next(i, |t|), e, |t|) < Dist(i, e, |t|)
  {
    var c := a[hole := Empty];
    assert c[i] == a[i];
    Advance(h, i, e, |t|);
    ShiftMoves(c, hole, i);
    MovedStep(t, c, h, from, hole, i);
    MoveEntry(c, hole, i);
    assert c[hole := c[i]][i := Empty] == a[hole := a[i]][i := Empty];
    from' := from[hole := from[i]];
  }

  lemma RemovingSkips(t: seq<Slot>, a: seq<Slot>, h: nat, from: seq<nat>, hole: nat, i: nat, e: nat)
    requires h < |t| && Removing(t, a, h, from, hole, i, e) && a[i].Full?
    requires Dist(Home(a[i].hash, |a|), hole, |a|) > Dist(Home(a[i].hash, |a|), i, |a|)
    ensures Removing(t, a, h, from, hole, Next(i, |t|), e)
    ensures Dist(Next(i, |t|), e, |t|) < Dist(i, e, |t|)
  {
    assert a[hole := Empty][i] == a[i];
    Advance(h, i, e, |t|);
    ShiftSkips(a[hole := Empty], hole, i);
  }

  lemma RemovingEnds(t: seq<Slot>, a: seq<Slot>, text: Ptr -> string, hash: string -> nat,
                     h: nat, from: seq<nat>, hole: nat, i: nat, e: nat)
    requires h < |t| && t[h].Full? && Sound(t, text, hash) && Removing(t, a, h, from, hole, i, e) && a[i].Empty?
    ensures var c := a[hole := Empty];
      && Sound(c, text, hash) && Contents(c, text) == Contents(t, text) - {text(t[h].key)} && Removed(t, c, h)
      && Entries(c) == Entries(t) - One(t[h]) && Used(c) == Used(t) - 1
  {
    RemoveAt(t, a[hole := Empty], text, hash, h, from, hole, i);
  }
}
