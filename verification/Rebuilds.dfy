/**
 Whether each build compiles what the edits have made stale, and nothing else. Records of one file
 may hide one another, so the answer depends on the order in which a rule lists interfaces and plain
 sources of the same file.
 */
module Rebuilds {
  import opened Options
  import opened PathAlgebra
  import opened DepsFormat
  import opened DepsFile
  import opened NodeResolve
  import opened CompileLoop
  import opened CcRule
  import opened Incremental
  import Paths

  // ---------------------------------------------------------------- what a caller can check

  ghost predicate NotPlainBefore(setup: Setup, rule: Rule, m: nat, x: nat) {
    x < m && Place(setup, x) == Place(setup, m) ==> rule.IsInterface(x)
  }

  /** An interface without a plain source of the same file listed before it. */
  ghost predicate Unshadowed(setup: Setup, rule: Rule, m: nat) {
    m < |setup.sources| && rule.IsInterface(m) && forall x: nat :: NotPlainBefore(setup, rule, m, x)
  }

  /** The first source of the file of `j` is an interface. */
  ghost predicate Led(setup: Setup, rule: Rule, j: nat) {
    exists m: nat :: Place(setup, m) == Place(setup, j) && Unshadowed(setup, rule, m)
  }

  ghost predicate HasInterface(setup: Setup, rule: Rule, k: nat) {
    exists x: nat :: Place(setup, x) == Place(setup, k) && rule.IsInterface(x)
  }

  ghost predicate NotBetween(setup: Setup, x: nat, y: nat, file: string, z: nat) {
    x < z < y ==> Place(setup, z) != file
  }

  /** Source `y` comes after plain source `x` of its file, with no source of the other file between them. */
  ghost predicate Behind(setup: Setup, rule: Rule, x: nat, y: nat, other: string) {
    && x < y && Place(setup, x) == Place(setup, y) && !rule.IsInterface(x)
    && forall z: nat :: NotBetween(setup, x, y, other, z)
  }

  ghost predicate Masked(setup: Setup, rule: Rule, file: string, other: string, y: nat) {
    rule.IsInterface(y) && Place(setup, y) == file ==> exists x: nat :: Behind(setup, rule, x, y, other)
  }

  /** When two files are outdated and nothing else, no interface of theirs is reported. */
  ghost predicate MaskedPair(setup: Setup, rule: Rule, file: string, other: string) {
    forall y: nat :: Masked(setup, rule, file, other, y) && Masked(setup, rule, other, file, y)
  }

  /**
   The failure of interface `j` is not forgotten when it keeps source `k` from being compiled, or cannot do so.
   The second, for an object that some interface compiles too, means that `j` can only be compiled along with it.
   */
  ghost predicate Heeded(setup: Setup, before: Rule, rule: Rule, k: nat, j: nat) {
    rule.IsInterface(j) && Place(setup, j) != Place(setup, k) ==>
      || Led(setup, rule, j)
      || (HasInterface(setup, rule, k)
          && (!IsCanonical(setup, j) || !MaskedPair(setup, before, Place(setup, k), Place(setup, j))))
  }

  /**
   The sources the rule never forgets, when `before` is the rule whose records it reads. A canonically spelled
   one: if it is an interface, or if the failures of all interfaces are heeded. One spelled otherwise: if the
   first source of its file is an interface.
   */
  ghost predicate Safe(setup: Setup, before: Rule, rule: Rule, k: nat) {
    && k < |setup.sources|
    && if IsCanonical(setup, k) then rule.IsInterface(k) || forall j: nat :: Heeded(setup, before, rule, k, j)
       else Led(setup, rule, k)
  }

  // ---------------------------------------------------------------- which records tell

  ghost predicate NoSourceBefore(recs: seq<Record>, i: nat, x: nat) {
    i < |recs| && x < i && recs[x].resource == recs[i].resource ==> recs[x].flags != 's'
  }

  /** A record that makes everything outdated, and that no source record of the same file can hide. */
  ghost predicate Leading(recs: seq<Record>, i: nat) {
    i < |recs| && recs[i].flags != 's' && forall x: nat :: NoSourceBefore(recs, i, x)
  }

  /** When record `i` is stale, source `k` is compiled. */
  ghost predicate Tells(setup: Setup, recs: seq<Record>, k: nat, i: nat) {
    i < |recs| && ((IsCanonical(setup, k) && recs[i].resource == Some(Place(setup, k))) || Leading(recs, i))
  }

  predicate Watches(r: Record, f: string, place: string, time: int) {
    r.resource == Some(place) && r.serial == time
    && ((r.kind == FILE && f == place) || (r.kind == ALIAS && r.alias == Some(f)))
  }

  ghost predicate WatchedBy(setup: Setup, recs: seq<Record>, k: nat, f: string, time: int) {
    exists i: nat :: Tells(setup, recs, k, i) && Watches(recs[i], f, Place(setup, k), time)
  }

  /** All files behind the object are recorded with the times it was built from. */
  ghost predicate Covered(setup: Setup, recs: seq<Record>, k: nat, times: map<string, int>) {
    forall f | f in times :: WatchedBy(setup, recs, k, f, times[f])
  }

  predicate FailedAt(recs: seq<Record>, i: nat) {
    i < |recs| && recs[i].kind == FILE && recs[i].serial == 0
  }

  ghost predicate FailureTold(setup: Setup, recs: seq<Record>, k: nat) {
    exists i: nat :: Tells(setup, recs, k, i) && FailedAt(recs, i)
  }

  /** Source `k` is up to date as recorded, or a failure is recorded that makes the next build compile it. */
  ghost predicate Tracked(setup: Setup, s: State, k: nat) {
    Records(s) != [] ==>
      || (Place(setup, k) in s.built && Covered(setup, Records(s), k, s.built[Place(setup, k)]))
      || FailureTold(setup, Records(s), k)
  }

  // ---------------------------------------------------------------- the invariant

  ghost predicate PlainSource(recs: seq<Record>, cacheDir: string, i: nat) {
    i < |recs| ==>
      recs[i].resource.Some?
      && (recs[i].flags == 's' ==> Normal(recs[i].resource.value, cacheDir) == recs[i].resource.value)
  }

  /** Recorded times are past times. */
  ghost predicate PastTimes(s: State, place: string) {
    place in s.built ==>
      forall f | f in s.built[place] ::
        s.built[place][f] <= s.clock && (f in s.files ==> s.files[f] >= s.built[place][f])
  }

  ghost predicate Listed(setup: Setup, s: State, place: string) {
    place in s.built ==> s.built[place].Keys == Watched(setup, s.lists, place)
  }

  function WatchedFile(r: Record): string {
    if r.kind == FILE then Text(r.resource) else Text(r.alias)
  }

  predicate FailedIn(recs: seq<Record>, place: string) {
    exists i :: 0 <= i < |recs| && recs[i].kind == FILE && recs[i].resource == Some(place) && recs[i].serial == 0
  }

  /** A source record belongs to a file that is stale, has failed, or was built when the record was made. */
  ghost predicate ExplainedBy(setup: Setup, s: State, r: Record, place: string) {
    && r.resource == Some(place) && (r.kind == FILE || r.kind == ALIAS)
    && (|| FailedIn(Records(s), place)
        || StaleObject(s, place)
        || (WatchedFile(r) in s.built[place] && s.built[place][WatchedFile(r)] == r.serial))
  }

  ghost predicate Accounted(setup: Setup, s: State, i: nat) {
    i < |Records(s)| && Records(s)[i].flags == 's' ==>
      ExplainedBy(setup, s, Records(s)[i], Text(Records(s)[i].resource))
  }

  ghost predicate Inv(setup: Setup, s: State) {
    && Ticking(s)
    && (forall p: string :: PastTimes(s, p))
    && (forall p: string :: Listed(setup, s, p))
    && (forall i: nat :: PlainSource(Records(s), setup.cacheDir, i))
    && (forall i: nat :: Accounted(setup, s, i))
    && (s.content.Some? ==> Regular(s.content.value))
  }

  // ---------------------------------------------------------------- why staleness is noticed

  lemma AllResources(recs: seq<Record>, cacheDir: string)
    requires forall i: nat :: PlainSource(recs, cacheDir, i)
    ensures forall i | 0 <= i < |recs| :: recs[i].resource.Some?
  {
    forall i | 0 <= i < |recs| ensures recs[i].resource.Some? { assert PlainSource(recs, cacheDir, i); }
  }

  /** The record reported last; the stale records after it are repeats. */
  lemma {:induction false} LastReported(recs: seq<Record>, n: nat, world: World, vals: Values) returns (x: nat)
    requires n <= |recs| && Reported(recs[..n], None, world, vals) != []
    requires forall z | 0 <= z < |recs| :: recs[z].resource.Some?
    ensures x < n && Stale(recs[x], world, vals)
            && LastSeen(Reported(recs[..n], None, world, vals), None) == recs[x].resource
    ensures recs[x].flags == var seen := Reported(recs[..n], None, world, vals); seen[|seen| - 1].flags
    ensures forall z | x < z < n && Stale(recs[z], world, vals) :: recs[z].resource == recs[x].resource
  {
    var m := n - 1;
    var seen := Reported(recs[..m], None, world, vals);
    assert recs[..n] == recs[..m] + [recs[m]];
    ReportedMore(recs[..m], None, world, vals, recs[m]);
    if LastSeen(seen, None) == recs[m].resource || !Stale(recs[m], world, vals) {
      x := LastReported(recs, m, world, vals);
    } else {
      x := m;
    }
  }

  /** A stale record that does not make everything outdated is a repeat of a source record. */
  lemma HiddenBehind(recs: seq<Record>, i: nat, world: World, vals: Values) returns (x: nat)
    requires i < |recs| && Stale(recs[i], world, vals) && recs[i].flags != 's'
    requires forall z | 0 <= z < |recs| :: recs[z].resource.Some?
    ensures All(Reported(recs, None, world, vals)) ||
            (&& x < i && Stale(recs[x], world, vals) && recs[x].flags == 's' && recs[x].resource == recs[i].resource
             && forall z | x < z < i && Stale(recs[z], world, vals) :: recs[z].resource == recs[i].resource)
  {
    if All(Reported(recs, None, world, vals)) {
      return 0;
    }
    var out, seen := Reported(recs, None, world, vals), Reported(recs[..i], None, world, vals);
    assert recs[..i + 1] == recs[..i] + [recs[i]];
    ReportedMore(recs[..i], None, world, vals, recs[i]);
    ReportedPrefix(recs, i, world, vals);
    ReportedPrefix(recs, i + 1, world, vals);
    var upTo := Reported(recs[..i + 1], None, world, vals);
    assert out[|upTo| - 1].flags == 's';
    x := LastReported(recs, i, world, vals);
    assert out[|seen| - 1].flags == 's';
  }

  /** A stale leading record makes everything outdated, reported itself or hidden by another such record. */
  lemma LeadingIsAll(recs: seq<Record>, i: nat, world: World, vals: Values)
    requires Leading(recs, i) && Stale(recs[i], world, vals)
    requires forall x | 0 <= x < |recs| :: recs[x].resource.Some?
    ensures All(Reported(recs, None, world, vals))
  {
    var x := HiddenBehind(recs, i, world, vals);
    assert NoSourceBefore(recs, i, x);
  }

  lemma ToldIsChosen(setup: Setup, s: State, b: Build, k: nat, i: nat)
    requires Inv(setup, s) && Sane(setup, b.rule) && k < |setup.sources| && Tells(setup, Records(s), k, i)
    requires Stale(Records(s)[i], WorldOf(setup, s, b), b.rule.vals)
    ensures Chosen(setup, s, b, k)
  {
    var recs, world := Records(s), WorldOf(setup, s, b);
    AllResources(recs, setup.cacheDir);
    StaleIsReported(recs, None, world, b.rule.vals, i);
    if Leading(recs, i) { LeadingIsAll(recs, i, world, b.rule.vals); }
  }

  /** A failure recorded for the source, or for an interface that leads, makes the next build compile it. */
  lemma FailureIsChosen(setup: Setup, s: State, b: Build, k: nat)
    requires Inv(setup, s) && Sane(setup, b.rule) && k < |setup.sources| && FailureTold(setup, Records(s), k)
    ensures Chosen(setup, s, b, k)
  {
    var i: nat :| Tells(setup, Records(s), k, i) && FailedAt(Records(s), i);
    assert PlainSource(Records(s), setup.cacheDir, i);
    ToldIsChosen(setup, s, b, k, i);
  }

  /** A file that has changed since it was recorded makes its source outdated. */
  lemma ChangeIsChosen(setup: Setup, s: State, b: Build, k: nat, f: string)
    requires Inv(setup, s) && Sane(setup, b.rule) && k < |setup.sources| && Place(setup, k) in s.built
    requires Covered(setup, Records(s), k, s.built[Place(setup, k)]) && f in s.built[Place(setup, k)]
    requires !(f in s.files && s.files[f] == s.built[Place(setup, k)][f])
    ensures Chosen(setup, s, b, k)
  {
    var place := Place(setup, k);
    assert PastTimes(s, place);
    assert WatchedBy(setup, Records(s), k, f, s.built[place][f]);
    var i: nat :| Tells(setup, Records(s), k, i) && Watches(Records(s)[i], f, place, s.built[place][f]);
    ToldIsChosen(setup, s, b, k, i);
  }

  /** A tracked source whose object is stale is compiled by the next build. */
  lemma StaleIsChosen(setup: Setup, s: State, b: Build, k: nat)
    requires Inv(setup, s) && Sane(setup, b.rule) && k < |setup.sources| && Tracked(setup, s, k)
             && StaleObject(s, Place(setup, k))
    ensures Chosen(setup, s, b, k)
  {
    if Records(s) != [] {
      if FailureTold(setup, Records(s), k) {
        FailureIsChosen(setup, s, b, k);
      } else {
        var f :| f in s.built[Place(setup, k)] && !(f in s.files && s.files[f] == s.built[Place(setup, k)][f]);
        ChangeIsChosen(setup, s, b, k, f);
      }
    }
  }

  /** Under another spelling a source is only compiled when everything is. */
  lemma OthersNeedAll(setup: Setup, s: State, b: Build, k: nat)
    requires Inv(setup, s) && Sane(setup, b.rule) && k < |setup.sources| && !IsCanonical(setup, k)
    ensures Chosen(setup, s, b, k) <==> Called(setup, s, b) && All(Out(setup, s, b))
  {
    if Chosen(setup, s, b, k) && !All(Out(setup, s, b)) {
      var i := NamedBySource(setup, s, b, k);
    }
  }

  /** When not everything is outdated, a source is compiled because a source record names it. */
  lemma NamedBySource(setup: Setup, s: State, b: Build, k: nat) returns (i: nat)
    requires Inv(setup, s) && Chosen(setup, s, b, k) && !All(Out(setup, s, b))
    ensures i < |Records(s)| && Stale(Records(s)[i], WorldOf(setup, s, b), b.rule.vals) && Records(s)[i].flags == 's'
    ensures Records(s)[i].resource == Some(b.rule.sources[k])
    ensures Normal(b.rule.sources[k], setup.cacheDir) == b.rule.sources[k]
  {
    var recs, world, out := Records(s), WorldOf(setup, s, b), Out(setup, s, b);
    var j :| 0 <= j < |out| && out[j].path == b.rule.sources[k];
    ReportedIsStale(recs, None, world, b.rule.vals, out[j]);
    i :| 0 <= i < |recs| && Stale(recs[i], world, b.rule.vals)
         && out[j] == Outdated(recs[i].kind, recs[i].flags, Text(recs[i].resource));
    assert PlainSource(recs, setup.cacheDir, i);
  }

  /** Precision: short of everything, a source is only compiled if its object is stale or a failure is recorded. */
  lemma OnlyAffected(setup: Setup, s: State, b: Build, k: nat)
    requires Inv(setup, s) && Sane(setup, b.rule) && Chosen(setup, s, b, k) && !All(Out(setup, s, b))
    ensures IsCanonical(setup, k) && (StaleObject(s, Place(setup, k)) || FailedIn(Records(s), Place(setup, k)))
  {
    var i := NamedBySource(setup, s, b, k);
    assert PlainSource(Records(s), setup.cacheDir, i) && Accounted(setup, s, i) && PastTimes(s, Place(setup, k));
  }

  // ---------------------------------------------------------------- what a build records

  /** The recorded name of a source is its place. */
  lemma RecordedPlace(setup: Setup, rule: Rule, k: nat)
    requires Sane(setup, rule) && k < |setup.sources|
    ensures rule.CachePath(k) ==
              Relative(Meaning(setup.cacheDir, setup.cacheDir), Meaning(Place(setup, k), setup.cacheDir))
    ensures Canonical(rule.CachePath(k), setup.cacheDir) == Some(Place(setup, k))
  {
    var cache := setup.cacheDir;
    assert FitsAt(rule, k);
    Paths.FoundIsMeaning(setup.sources[k], cache);
    Paths.FoundIsMeaning(Place(setup, k), cache);
    Paths.FoundIsMeaning(cache, cache);
    NormalIdempotent(setup.sources[k], cache, cache);
    RelativizeNormalize(cache, Place(setup, k), cache);
    Paths.FoundIsMeaning(rule.CachePath(k), cache);
  }

  // The new file, seen from its sources: `owners[i]` is the source of record `i`, `failed` those recorded as failed.

  function Time(files: map<string, int>, f: string): int {
    if f in files then files[f] else 0
  }

  ghost predicate OwnedAt(setup: Setup, s: State, b: Build, failed: set<nat>, recs: seq<Record>,
                          owners: seq<Option<nat>>, i: nat) {
    i < |recs| && i < |owners| ==>
      && var r := recs[i];
        r.resource.Some?
        && if owners[i] == None then r.flags == ' ' else OwnedBy(setup, s, b, failed, r, owners[i].value)
  }

  ghost predicate OwnedBy(setup: Setup, s: State, b: Build, failed: set<nat>, r: Record, q: nat) {
    && q < |setup.sources| && r.resource == Some(Place(setup, q)) && (r.kind == FILE || r.kind == ALIAS)
    && r.flags == (if b.rule.IsInterface(q) then ' ' else 's')
    && (if q in failed then r.kind == FILE && r.serial == 0
        else WatchedFile(r) in Watched(setup, b.headers, Place(setup, q)) && r.serial == Time(s.files, WatchedFile(r)))
  }

  ghost predicate InOrder(owners: seq<Option<nat>>, x: nat, i: nat) {
    x < i < |owners| && owners[x].Some? && owners[i].Some? ==> owners[x].value <= owners[i].value
  }

  ghost predicate HasFile(setup: Setup, s: State, b: Build, failed: set<nat>, recs: seq<Record>,
                          owners: seq<Option<nat>>,
                          k: nat, f: string) {
    k < |setup.sources| && k !in failed && f in Watched(setup, b.headers, Place(setup, k)) ==>
      exists i: nat :: OwnerIs(recs, owners, i, k) && Watches(recs[i], f, Place(setup, k), Time(s.files, f))
  }

  ghost predicate OwnerIs(recs: seq<Record>, owners: seq<Option<nat>>, i: nat, k: nat) {
    i < |recs| && i < |owners| && owners[i] == Some(k)
  }

  ghost predicate HasRecord(setup: Setup, recs: seq<Record>, owners: seq<Option<nat>>, k: nat) {
    k < |setup.sources| ==> exists i: nat :: OwnerIs(recs, owners, i, k)
  }

  ghost predicate NewFile(setup: Setup, s: State, b: Build, failed: set<nat>, recs: seq<Record>,
                          owners: seq<Option<nat>>) {
    && |owners| == |recs|
    && (forall i: nat :: OwnedAt(setup, s, b, failed, recs, owners, i))
    && (forall x: nat, i: nat :: InOrder(owners, x, i))
    && (forall k: nat, f: string :: HasFile(setup, s, b, failed, recs, owners, k, f))
    && (forall k: nat :: HasRecord(setup, recs, owners, k))
  }

  /** The sources whose path is in the failure map. */
  function FailedSources(b: Build): set<nat> {
    set k | 0 <= k < |b.rule.sources| && b.rule.CachePath(k) in b.fmap
  }

  function BlockOf(b: Build): nat -> seq<Entry> {
    (k: nat) => SourceEntries(b.rule, k, b.fmap, ListsOf(b))
  }

  /** The records before those of the sources, and after them. */
  function Heading(rule: Rule): seq<Entry> {
    FileEntries(rule.unitFiles) + ValueEntries(rule.vals, 0) + FileEntries(rule.consumes)
  }

  function Trailing(b: Build): seq<Entry> {
    FileEntries(b.rule.moduleFiles) + ToolchainEntries(b.target, b.toolchain)
  }

  function OwnersOf(b: Build): seq<Option<nat>> {
    var numbers := Numbers(|b.rule.sources|, BlockOf(b));
    seq(|Heading(b.rule)|, _ => None)
    + seq(|numbers|, i requires 0 <= i < |numbers| => Some(numbers[i]))
    + seq(|Trailing(b)|, _ => None)
  }

  lemma {:induction false} ValuesPlain(vals: Values, i: nat)
    ensures forall e | e in ValueEntries(vals, i) :: e.flags == NUL
    decreases |vals| - i
  {
    if i < |vals| {
      ValuesPlain(vals, i + 1);
    }
  }

  lemma FilesPlain(paths: seq<string>)
    ensures forall e | e in FileEntries(paths) :: e.flags == NUL
  {
  }

  lemma OthersPlain(b: Build)
    ensures forall e | e in Heading(b.rule) :: e.flags == NUL
    ensures forall e | e in Trailing(b) :: e.flags == NUL
  {
    ValuesPlain(b.rule.vals, 0);
    FilesPlain(b.rule.unitFiles);
    FilesPlain(b.rule.consumes);
    FilesPlain(b.rule.moduleFiles);
  }

  ghost predicate EntryOwned(es: seq<Entry>, owners: seq<Option<nat>>, n: nat, f: nat -> seq<Entry>, i: nat) {
    i < |es| && i < |owners| ==>
      if owners[i] == None then es[i].flags == NUL else owners[i].value < n && es[i] in f(owners[i].value)
  }

  lemma EntriesInThree(b: Build)
    ensures EntriesOf(b) == Heading(b.rule) + Flatten(|b.rule.sources|, BlockOf(b)) + Trailing(b)
  {
  }

  /** The three parts of the entries and of their owners match. */
  lemma PartsOwned(front: seq<Entry>, rest: seq<Entry>, n: nat, f: nat -> seq<Entry>, es: seq<Entry>,
                   owners: seq<Option<nat>>)
    requires es == front + Flatten(n, f) + rest
    requires owners == seq(|front|, _ => None)
                       + seq(|Numbers(n, f)|, i requires 0 <= i < |Numbers(n, f)| => Some(Numbers(n, f)[i]))
                       + seq(|rest|, _ => None)
    requires (forall e | e in front :: e.flags == NUL) && (forall e | e in rest :: e.flags == NUL)
    ensures |owners| == |es| && (forall i: nat :: EntryOwned(es, owners, n, f, i))
    ensures forall x: nat, i: nat :: InOrder(owners, x, i)
    ensures forall k: nat, e: Entry :: EntryReached(es, owners, n, f, k, e)
  {
    NumbersFit(n, f);
    var p, numbers := |front|, Numbers(n, f);
    forall i: nat ensures EntryOwned(es, owners, n, f, i) {
      if p <= i < p + |numbers| {
        var z := i - p;
        assert NumberedAt(n, f, z) && es[i] == Flatten(n, f)[z] && owners[i] == Some(numbers[z]);
      } else if i < p {
        assert es[i] == front[i];
      } else if i < |es| {
        assert es[i] == rest[i - p - |numbers|];
      }
    }
    forall x: nat, i: nat ensures InOrder(owners, x, i) {
      if p <= x < i < p + |numbers| {
        var y, z := x - p, i - p;
        assert Climbs(numbers, y, z);
      }
    }
    forall k: nat, e: Entry ensures EntryReached(es, owners, n, f, k, e) {
      if k < n && e in f(k) {
        var z := NumbersReach(n, f, k, e);
        var i := p + z;
        assert es[i] == e && owners[i] == Some(k);
      }
    }
  }

  ghost predicate EntryReached(es: seq<Entry>, owners: seq<Option<nat>>, n: nat, f: nat -> seq<Entry>, k: nat,
                               e: Entry) {
    k < n && e in f(k) ==> exists i: nat :: i < |es| && i < |owners| && es[i] == e && owners[i] == Some(k)
  }

  lemma EntriesOwned(b: Build)
    ensures var n, f := |b.rule.sources|, BlockOf(b);
            && |OwnersOf(b)| == |EntriesOf(b)| && (forall i: nat :: EntryOwned(EntriesOf(b), OwnersOf(b), n, f, i))
            && (forall x: nat, i: nat :: InOrder(OwnersOf(b), x, i))
            && (forall k: nat, e: Entry :: EntryReached(EntriesOf(b), OwnersOf(b), n, f, k, e))
  {
    EntriesInThree(b);
    OthersPlain(b);
    PartsOwned(Heading(b.rule), Trailing(b), |b.rule.sources|, BlockOf(b), EntriesOf(b), OwnersOf(b));
  }

  /** What is read after a build: the record of each entry, and nothing else. */
  lemma ReadEntries(es: seq<Entry>, world: World)
    requires forall j: nat :: StorableAt(es, world, j)
    ensures Regular(Content(Stamps(es, world))) && |ReadFile(Content(Stamps(es, world)), 0)| == |es|
    ensures forall i: nat :: ReadAt(es, world, ReadFile(Content(Stamps(es, world)), 0), i)
  {
    var recs := ReadFile(Content(Stamps(es, world)), 0);
    WrittenIsRead(es, world);
    forall i: nat ensures ReadAt(es, world, recs, i) {
      assert StorableAt(es, world, i) && Returns(es, world, recs, i);
    }
  }

  ghost predicate ReadAt(es: seq<Entry>, world: World, recs: seq<Record>, i: nat) {
    i < |es| && i < |recs| ==>
      && StampOf(es[i], world).Some? && exists serial :: recs[i] == ReadBack(RecordOf(es[i], world), serial)
  }

  /** The records of a build that called the rule. */
  lemma Reads(setup: Setup, s: State, b: Build, s': State)
    requires BuildStep(setup, s, b, s') && Called(setup, s, b)
    ensures |Records(s')| == |EntriesOf(b)| && s'.content.Some? && Regular(s'.content.value)
    ensures forall i: nat :: ReadAt(EntriesOf(b), WorldOf(setup, s, b), Records(s'), i)
  {
    ReadEntries(EntriesOf(b), WorldOf(setup, s, b));
  }

  lemma EntriesForHold(src: string, flag: char, failed: bool, headers: seq<string>, e: Entry)
    requires e in EntriesFor(src, flag, failed, headers)
    ensures e.resource == src && e.flags == flag && e.serial == 0
    ensures if failed then e.kind == FILE_OUTDATED else e.kind == FILE || (e.kind == ALIAS && e.alias in headers)
  {
    if !failed { HeaderEntriesHold(src, flag, headers, e); }
  }

  /** The record of an entry of source `q`. */
  lemma SourceRecord(setup: Setup, b: Build, world: World, q: nat, e: Entry)
    requires Sane(setup, b.rule) && world.cwd == setup.cacheDir && q < |setup.sources| && e in BlockOf(b)(q)
    requires StampOf(e, world).Some?
    ensures var r := RecordOf(e, world); var failed := b.rule.CachePath(q) in b.fmap;
            && r.resource == Some(Place(setup, q)) && Numbered(r.kind)
            && r.flags == (if b.rule.IsInterface(q) then ' ' else 's')
            && (failed ==> r.kind == FILE && r.serial == 0) && (r.kind == FILE || r.kind == ALIAS)
            && (!failed ==>
                  WatchedFile(r) in Watched(setup, b.headers, Place(setup, q))
                  && r.serial == world.MtimeOr(WatchedFile(r), 0))
  {
    var src := b.rule.CachePath(q);
    EntriesForHold(src, Flag(b.rule, q), src in b.fmap, ListsOf(b)(q), e);
    RecordedPlace(setup, b.rule, q);
  }

  lemma OtherRecord(e: Entry, world: World)
    requires e.flags == NUL && StampOf(e, world).Some?
    ensures RecordOf(e, world).flags == ' ' && RecordOf(e, world).resource.Some?
  {
  }


  /** The entry that watches a file of a source. */
  ghost predicate EntryWatches(setup: Setup, k: nat, e: Entry, f: string) {
    (e.kind == FILE && f == Place(setup, k)) || (e.kind == ALIAS && Canonical(e.alias, setup.cacheDir) == Some(f))
  }

  lemma BlockBegins(b: Build, k: nat)
    ensures var src := b.rule.CachePath(k);
            Entry(if src in b.fmap then FILE_OUTDATED else FILE, Flag(b.rule, k), src, "", 0) in BlockOf(b)(k)
  {
  }

  lemma EntryOfFile(setup: Setup, b: Build, k: nat, f: string) returns (e: Entry)
    requires Sane(setup, b.rule) && b.rule.CachePath(k) !in b.fmap && f in Watched(setup, b.headers, Place(setup, k))
    ensures e in BlockOf(b)(k) && EntryWatches(setup, k, e, f)
  {
    BlockBegins(b, k);
    e := Entry(FILE, Flag(b.rule, k), b.rule.CachePath(k), "", 0);
    if f != Place(setup, k) {
      var h :| h in ListsOf(b)(k) && Canonical(h, setup.cacheDir) == Some(f);
      e := Entry(ALIAS, Flag(b.rule, k), b.rule.CachePath(k), h, 0);
      HeaderEntriesHold(b.rule.CachePath(k), Flag(b.rule, k), ListsOf(b)(k), e);
    }
  }

  lemma KindOfStamp(e: Entry, world: World)
    requires StampOf(e, world).Some? && (e.kind == FILE || e.kind == ALIAS)
    ensures RecordOf(e, world).kind == e.kind
            && (e.kind == ALIAS ==> RecordOf(e, world).alias == Canonical(e.alias, world.cwd))
  {
  }

  lemma InFailed(b: Build, q: nat)
    requires q < |b.rule.sources|
    ensures q in FailedSources(b) <==> b.rule.CachePath(q) in b.fmap
  {
  }

  /** What is read back for an entry of source `q`. */
  lemma EntryGives(setup: Setup, s: State, b: Build, q: nat, e: Entry, r: Record, serial: int)
    requires Sane(setup, b.rule) && q < |setup.sources| && e in BlockOf(b)(q)
    requires StampOf(e, WorldOf(setup, s, b)).Some? && r == ReadBack(RecordOf(e, WorldOf(setup, s, b)), serial)
    ensures r == RecordOf(e, WorldOf(setup, s, b)) && OwnedBy(setup, s, b, FailedSources(b), r, q)
  {
    SourceRecord(setup, b, WorldOf(setup, s, b), q, e);
    InFailed(b, q);
  }

  lemma EntryWatched(setup: Setup, s: State, e: Entry, world: World, r: Record, q: nat, f: string)
    requires world.files == s.files && world.cwd == setup.cacheDir && StampOf(e, world).Some? && r == RecordOf(e, world)
    requires EntryWatches(setup, q, e, f) && r.resource == Some(Place(setup, q))
    requires r.serial == Time(s.files, WatchedFile(r))
    ensures Watches(r, f, Place(setup, q), Time(s.files, f))
  {
    KindOfStamp(e, world);
  }

  lemma RecordIsOwned(setup: Setup, s: State, b: Build, es: seq<Entry>, recs: seq<Record>, owners: seq<Option<nat>>,
                      i: nat)
    requires Sane(setup, b.rule) && ReadAt(es, WorldOf(setup, s, b), recs, i) && |es| == |recs|
    requires EntryOwned(es, owners, |setup.sources|, BlockOf(b), i)
    ensures OwnedAt(setup, s, b, FailedSources(b), recs, owners, i)
  {
    if i < |recs| && i < |owners| {
      var serial :| recs[i] == ReadBack(RecordOf(es[i], WorldOf(setup, s, b)), serial);
      if owners[i] == None {
        OtherRecord(es[i], WorldOf(setup, s, b));
      } else {
        EntryGives(setup, s, b, owners[i].value, es[i], recs[i], serial);
      }
    }
  }

  lemma FileHasRecord(setup: Setup, s: State, b: Build, es: seq<Entry>, recs: seq<Record>, owners: seq<Option<nat>>,
                      k: nat, f: string)
    requires Sane(setup, b.rule) && (forall i: nat :: ReadAt(es, WorldOf(setup, s, b), recs, i))
             && |es| == |recs| == |owners|
    requires forall e: Entry :: EntryReached(es, owners, |setup.sources|, BlockOf(b), k, e)
    ensures HasFile(setup, s, b, FailedSources(b), recs, owners, k, f)
  {
    if k < |setup.sources| && k !in FailedSources(b) && f in Watched(setup, b.headers, Place(setup, k)) {
      var e := EntryOfFile(setup, b, k, f);
      assert EntryReached(es, owners, |setup.sources|, BlockOf(b), k, e);
      var i: nat :| i < |es| && i < |owners| && es[i] == e && owners[i] == Some(k);
      assert ReadAt(es, WorldOf(setup, s, b), recs, i);
      var serial :| recs[i] == ReadBack(RecordOf(es[i], WorldOf(setup, s, b)), serial);
      EntryGives(setup, s, b, k, e, recs[i], serial);
      EntryWatched(setup, s, e, WorldOf(setup, s, b), recs[i], k, f);
      assert OwnerIs(recs, owners, i, k);
    }
  }

  lemma SourceHasRecord(setup: Setup, s: State, b: Build, s': State, k: nat)
    requires BuildStep(setup, s, b, s') && Called(setup, s, b)
    ensures HasRecord(setup, Records(s'), OwnersOf(b), k)
  {
    if k < |setup.sources| {
      var es, owners := EntriesOf(b), OwnersOf(b);
      Reads(setup, s, b, s');
      EntriesOwned(b);
      BlockBegins(b, k);
      var src := b.rule.CachePath(k);
      var e := Entry(if src in b.fmap then FILE_OUTDATED else FILE, Flag(b.rule, k), src, "", 0);
      assert EntryReached(es, owners, |b.rule.sources|, BlockOf(b), k, e);
      var i: nat :| i < |es| && i < |owners| && es[i] == e && owners[i] == Some(k);
      assert OwnerIs(Records(s'), owners, i, k);
    }
  }

  /** What a build that called the rule leaves on file. */
  lemma BuildLeaves(setup: Setup, s: State, b: Build, s': State)
    requires BuildStep(setup, s, b, s') && Called(setup, s, b)
    ensures NewFile(setup, s, b, FailedSources(b), Records(s'), OwnersOf(b))
    ensures s'.content.Some? && Regular(s'.content.value)
  {
    var failed, recs, owners := FailedSources(b), Records(s'), OwnersOf(b);
    Reads(setup, s, b, s');
    EntriesOwned(b);
    var es, n, f := EntriesOf(b), |setup.sources|, BlockOf(b);
    forall i: nat ensures OwnedAt(setup, s, b, failed, recs, owners, i) {
      assert ReadAt(es, WorldOf(setup, s, b), recs, i) && EntryOwned(es, owners, n, f, i);
      RecordIsOwned(setup, s, b, es, recs, owners, i);
    }
    forall k: nat, f: string ensures HasFile(setup, s, b, failed, recs, owners, k, f) {
      FileHasRecord(setup, s, b, es, recs, owners, k, f);
    }
    forall k: nat ensures HasRecord(setup, recs, owners, k) { SourceHasRecord(setup, s, b, s', k); }
  }

  /** The records of an unshadowed interface lead. */
  lemma UnshadowedLeads(setup: Setup, s: State, b: Build, failed: set<nat>, recs: seq<Record>, owners: seq<Option<nat>>,
                        m: nat, i: nat)
    requires NewFile(setup, s, b, failed, recs, owners) && Unshadowed(setup, b.rule, m) && OwnerIs(recs, owners, i, m)
    ensures Leading(recs, i)
  {
    assert OwnedAt(setup, s, b, failed, recs, owners, i);
    forall x: nat ensures NoSourceBefore(recs, i, x) {
      if x < i {
        assert OwnedAt(setup, s, b, failed, recs, owners, x) && InOrder(owners, x, i);
        if owners[x].Some? { assert NotPlainBefore(setup, b.rule, m, owners[x].value); }
      }
    }
  }

  /** A source that speaks for the file of `k`. */
  lemma Speaker(setup: Setup, rule: Rule, k: nat) returns (m: nat)
    requires k < |setup.sources| && (IsCanonical(setup, k) || Led(setup, rule, k))
    ensures m < |setup.sources| && Place(setup, m) == Place(setup, k)
    ensures IsCanonical(setup, k) || Unshadowed(setup, rule, m)
  {
    if IsCanonical(setup, k) {
      m := k;
    } else {
      m :| Place(setup, m) == Place(setup, k) && Unshadowed(setup, rule, m);
    }
  }

  /** A record of such a source tells on `k`. */
  lemma SourceTells(setup: Setup, s: State, b: Build, failed: set<nat>, recs: seq<Record>, owners: seq<Option<nat>>,
                    k: nat, m: nat, i: nat)
    requires NewFile(setup, s, b, failed, recs, owners) && OwnerIs(recs, owners, i, m)
    requires Place(setup, m) == Place(setup, k) && (IsCanonical(setup, k) || Unshadowed(setup, b.rule, m))
    ensures Tells(setup, recs, k, i)
  {
    assert OwnedAt(setup, s, b, failed, recs, owners, i);
    if !IsCanonical(setup, k) { UnshadowedLeads(setup, s, b, failed, recs, owners, m, i); }
  }

  /** A failure of the file itself is told on the source. */
  lemma OwnFailureTold(setup: Setup, s: State, b: Build, recs: seq<Record>, owners: seq<Option<nat>>, k: nat)
    requires Sane(setup, b.rule) && NewFile(setup, s, b, FailedSources(b), recs, owners)
    requires k < |setup.sources| && k in FailedSources(b) && (IsCanonical(setup, k) || Led(setup, b.rule, k))
    ensures FailureTold(setup, recs, k)
  {
    var m := Speaker(setup, b.rule, k);
    SameFileFails(setup, b, k, m);
    assert HasRecord(setup, recs, owners, m);
    var i: nat :| OwnerIs(recs, owners, i, m);
    SourceTells(setup, s, b, FailedSources(b), recs, owners, k, m, i);
    assert OwnedAt(setup, s, b, FailedSources(b), recs, owners, i);
    assert FailedAt(recs, i);
  }

  /** The failure of an unshadowed interface is told on every source. */
  lemma UnshadowedFailureTold(setup: Setup, s: State, b: Build, failed: set<nat>, recs: seq<Record>,
                              owners: seq<Option<nat>>, m: nat, k: nat)
    requires NewFile(setup, s, b, failed, recs, owners) && m in failed && Unshadowed(setup, b.rule, m)
    ensures FailureTold(setup, recs, k)
  {
    assert HasRecord(setup, recs, owners, m);
    var i: nat :| OwnerIs(recs, owners, i, m);
    UnshadowedLeads(setup, s, b, failed, recs, owners, m, i);
    assert OwnedAt(setup, s, b, failed, recs, owners, i);
    assert FailedAt(recs, i) && Tells(setup, recs, k, i);
  }

  /** What is recorded for a file that did not fail covers its object, if that is up to date. */
  lemma RecordsCover(setup: Setup, s: State, b: Build, recs: seq<Record>, owners: seq<Option<nat>>, k: nat)
    requires Sane(setup, b.rule) && NewFile(setup, s, b, FailedSources(b), recs, owners)
    requires k < |setup.sources| && k !in FailedSources(b) && (IsCanonical(setup, k) || Led(setup, b.rule, k))
    ensures Covered(setup, recs, k, Times(s.files, Watched(setup, b.headers, Place(setup, k))))
  {
    var m := Speaker(setup, b.rule, k);
    SameFileFails(setup, b, k, m);
    var place := Place(setup, k);
    forall f | f in Watched(setup, b.headers, place) ensures WatchedBy(setup, recs, k, f, Time(s.files, f)) {
      assert HasFile(setup, s, b, FailedSources(b), recs, owners, m, f);
      var i: nat :| OwnerIs(recs, owners, i, m) && Watches(recs[i], f, place, Time(s.files, f));
      SourceTells(setup, s, b, FailedSources(b), recs, owners, k, m, i);
    }
  }

  lemma BrokenIsMarked(setup: Setup, s: State, b: Build, s': State, k: nat)
    requires BuildStep(setup, s, b, s') && Called(setup, s, b) && Broken(b.rule, Out(setup, s, b), b.cc, k)
    ensures k in FailedSources(b)
  {
    assert MarkedPath(b.fmap, b.rule, Out(setup, s, b), b.cc, b.rule.CachePath(k));
  }

  /** A source with the file of a failed one counts as failed too. */
  lemma SameFileFails(setup: Setup, b: Build, j: nat, k: nat)
    requires Sane(setup, b.rule) && j < |setup.sources| && k < |setup.sources| && Place(setup, j) == Place(setup, k)
    ensures j in FailedSources(b) <==> k in FailedSources(b)
  {
    RecordedPlace(setup, b.rule, j);
    RecordedPlace(setup, b.rule, k);
  }

  // ---------------------------------------------------------------- every step keeps the invariant

  lemma NewTimes(setup: Setup, s: State, b: Build, s': State, place: string)
    requires Ticking(s) && PastTimes(s, place) && Listed(setup, s, place)
    requires s'.files == s.files && s'.clock == s.clock && s'.lists == b.headers && Rebuilt(setup, s, b, s', place)
    ensures PastTimes(s', place) && Listed(setup, s', place)
  {
    var times := Times(s.files, Watched(setup, b.headers, place));
    assert times.Keys == Watched(setup, b.headers, place);
    assert forall f | f in times :: times[f] <= s.clock && (f in s.files ==> s.files[f] == times[f]);
    assert b.headers(place) == s.lists(place) ==> Watched(setup, b.headers, place) == Watched(setup, s.lists, place);
  }

  /** An object that was left alone because it is up to date was built from the present files. */
  lemma CurrentTimes(setup: Setup, s: State, headers: string -> seq<string>, place: string)
    requires place in s.built && !StaleObject(s, place) && Listed(setup, s, place)
             && headers(place) == s.lists(place)
    ensures s.built[place] == Times(s.files, Watched(setup, headers, place))
  {
    var times := Times(s.files, Watched(setup, headers, place));
    assert times.Keys == s.built[place].Keys;
    forall f | f in times ensures times[f] == s.built[place][f] {
    }
  }

  // Which records the next build reads, and what that means for two files outdated at once.

  ghost predicate OwnerFlag(setup: Setup, rule: Rule, recs: seq<Record>, owners: seq<Option<nat>>, i: nat) {
    i < |recs| && i < |owners| ==>
      && recs[i].resource.Some?
      && match owners[i]
         case None => recs[i].flags == ' '
         case Some(q) =>
           && q < |setup.sources| && recs[i].resource == Some(Place(setup, q))
           && recs[i].flags == if rule.IsInterface(q) then ' ' else 's'
  }

  /** Two records that watch the same file and were made at the same time. */
  predicate Alike(r: Record, t: Record) {
    && (r.kind == FILE || r.kind == ALIAS) && (t.kind == FILE || t.kind == ALIAS)
    && WatchedFile(r) == WatchedFile(t) && r.serial == t.serial
  }

  /** Each source of a file has the records of the others. */
  ghost predicate Twinned(setup: Setup, recs: seq<Record>, owners: seq<Option<nat>>, q: nat, i: nat, y: nat) {
    OwnerIs(recs, owners, i, q) && y < |setup.sources| && Place(setup, y) == Place(setup, q) ==>
      exists z: nat :: OwnerIs(recs, owners, z, y) && Alike(recs[i], recs[z])
  }

  ghost predicate Arranged(setup: Setup, rule: Rule, recs: seq<Record>, owners: seq<Option<nat>>) {
    && |owners| == |recs| && (forall i: nat :: OwnerFlag(setup, rule, recs, owners, i))
    && (forall x: nat, i: nat :: InOrder(owners, x, i))
    && forall q: nat, i: nat, y: nat :: Twinned(setup, recs, owners, q, i, y)
  }

  /** The records were written for this rule. */
  ghost predicate Laid(setup: Setup, rule: Rule, recs: seq<Record>) {
    exists owners: seq<Option<nat>> :: Arranged(setup, rule, recs, owners)
  }

  lemma SourcesAgree(setup: Setup, s: State, b: Build, recs: seq<Record>, owners: seq<Option<nat>>, q: nat, i: nat,
                     y: nat)
    requires Sane(setup, b.rule) && NewFile(setup, s, b, FailedSources(b), recs, owners)
    ensures Twinned(setup, recs, owners, q, i, y)
  {
    if OwnerIs(recs, owners, i, q) && y < |setup.sources| && Place(setup, y) == Place(setup, q) {
      assert OwnedAt(setup, s, b, FailedSources(b), recs, owners, i);
      SameFileFails(setup, b, q, y);
      if q in FailedSources(b) {
        assert HasRecord(setup, recs, owners, y);
        var z: nat :| OwnerIs(recs, owners, z, y);
        assert OwnedAt(setup, s, b, FailedSources(b), recs, owners, z);
        assert Alike(recs[i], recs[z]);
      } else {
        var f := WatchedFile(recs[i]);
        assert HasFile(setup, s, b, FailedSources(b), recs, owners, y, f);
        var z: nat :| OwnerIs(recs, owners, z, y) && Watches(recs[z], f, Place(setup, y), Time(s.files, f));
        assert Alike(recs[i], recs[z]);
      }
    }
  }

  lemma BuildArranges(setup: Setup, s: State, b: Build, s': State)
    requires BuildStep(setup, s, b, s') && Called(setup, s, b)
    ensures Arranged(setup, b.rule, Records(s'), OwnersOf(b))
  {
    BuildLeaves(setup, s, b, s');
    var recs, owners := Records(s'), OwnersOf(b);
    forall i: nat ensures OwnerFlag(setup, b.rule, recs, owners, i) {
      assert OwnedAt(setup, s, b, FailedSources(b), recs, owners, i);
    }
    forall q: nat, i: nat, y: nat ensures Twinned(setup, recs, owners, q, i, y) {
      SourcesAgree(setup, s, b, recs, owners, q, i, y);
    }
  }

  lemma ArrangedResources(setup: Setup, rule: Rule, recs: seq<Record>, owners: seq<Option<nat>>)
    requires Arranged(setup, rule, recs, owners)
    ensures forall z | 0 <= z < |recs| :: recs[z].resource.Some?
  {
    forall z | 0 <= z < |recs| ensures recs[z].resource.Some? { assert OwnerFlag(setup, rule, recs, owners, z); }
  }

  /** If records of two files are stale and not everything is outdated, the two files mask their interfaces. */
  lemma PairIsMasked(setup: Setup, rule: Rule, recs: seq<Record>, owners: seq<Option<nat>>, world: World, vals: Values,
                     a: nat, c: nat, y: nat)
    requires Arranged(setup, rule, recs, owners) && !All(Reported(recs, None, world, vals))
    requires a < |recs| && Stale(recs[a], world, vals) && recs[a].flags == 's' && recs[a].resource.Some?
    requires c < |recs| && Stale(recs[c], world, vals) && recs[c].flags == 's' && recs[c].resource.Some?
    requires recs[a].resource != recs[c].resource && y < |setup.sources|
    ensures Masked(setup, rule, recs[a].resource.value, recs[c].resource.value, y)
  {
    var f, g := recs[a].resource.value, recs[c].resource.value;
    if rule.IsInterface(y) && Place(setup, y) == f {
      assert OwnerFlag(setup, rule, recs, owners, a) && OwnerFlag(setup, rule, recs, owners, c);
      var i := StaleTwin(setup, rule, recs, owners, world, vals, a, y);
      ArrangedResources(setup, rule, recs, owners);
      var e := HiddenBehind(recs, i, world, vals);
      assert OwnerFlag(setup, rule, recs, owners, e) && InOrder(owners, e, i);
      var x := owners[e].value;
      forall z: nat ensures NotBetween(setup, x, y, g, z) {
        NoneBetween(setup, rule, recs, owners, world, vals, e, i, c, x, y, z);
      }
      assert Behind(setup, rule, x, y, g);
    }
  }

  /** Between two records of one file, with no other stale ones there, stands no source of another stale file. */
  lemma NoneBetween(setup: Setup, rule: Rule, recs: seq<Record>, owners: seq<Option<nat>>, world: World, vals: Values,
                    e: nat, i: nat, c: nat, x: nat, y: nat, z: nat)
    requires Arranged(setup, rule, recs, owners) && OwnerIs(recs, owners, e, x) && OwnerIs(recs, owners, i, y)
    requires c < |recs| && Stale(recs[c], world, vals) && recs[c].resource.Some? && recs[c].flags == 's'
             && recs[c].resource != recs[i].resource
    requires forall l | e < l < i && Stale(recs[l], world, vals) :: recs[l].resource == recs[i].resource
    requires y < |setup.sources|
    ensures NotBetween(setup, x, y, recs[c].resource.value, z)
  {
    assert OwnerFlag(setup, rule, recs, owners, c);
    if z < |setup.sources| && Place(setup, z) == recs[c].resource.value {
      var l := StaleTwin(setup, rule, recs, owners, world, vals, c, z);
      assert InOrder(owners, l, e) && InOrder(owners, i, l);
    }
  }

  /** With one record of a file each of its sources has a stale one. */
  lemma StaleTwin(setup: Setup, rule: Rule, recs: seq<Record>, owners: seq<Option<nat>>, world: World, vals: Values,
                  a: nat, y: nat) returns (i: nat)
    requires Arranged(setup, rule, recs, owners) && a < |recs| && Stale(recs[a], world, vals) && owners[a].Some?
    requires y < |setup.sources| && Place(setup, y) == Place(setup, owners[a].value)
    ensures OwnerIs(recs, owners, i, y) && Stale(recs[i], world, vals) && recs[i].resource == recs[a].resource
    ensures recs[i].flags == if rule.IsInterface(y) then ' ' else 's'
  {
    assert Twinned(setup, recs, owners, owners[a].value, a, y);
    i :| OwnerIs(recs, owners, i, y) && Alike(recs[a], recs[i]);
    assert OwnerFlag(setup, rule, recs, owners, i) && OwnerFlag(setup, rule, recs, owners, a);
  }

  /** A source that was selected, but whose file was skipped, leaves a failure that makes the next build compile it. */
  lemma SkipIsTold(setup: Setup, s: State, before: Rule, b: Build, s': State, k: nat)
    requires Inv(setup, s) && (Records(s) != [] ==> Laid(setup, before, Records(s)))
    requires BuildStep(setup, s, b, s') && Called(setup, s, b) && Safe(setup, before, b.rule, k)
    requires Selected(b.rule, Out(setup, s, b), k) && !FileAttempted(setup, s, b, Place(setup, k))
    ensures FailureTold(setup, Records(s'), k)
  {
    SaneBuild(setup, s, b, s');
    SkippedIsCanonical(setup, s, b, k);
    var j := Culprit(setup, s, b, k);
    CulpritIsLed(setup, s, before, b, j, k);
    LedFailureTold(setup, s, b, s', j, k);
  }

  lemma LedFailureTold(setup: Setup, s: State, b: Build, s': State, j: nat, k: nat)
    requires BuildStep(setup, s, b, s') && Called(setup, s, b) && Broken(b.rule, Out(setup, s, b), b.cc, j)
    requires Led(setup, b.rule, j)
    ensures FailureTold(setup, Records(s'), k)
  {
    var m: nat :| Place(setup, m) == Place(setup, j) && Unshadowed(setup, b.rule, m);
    BrokenIsMarked(setup, s, b, s', j);
    SameFileFails(setup, b, j, m);
    BuildLeaves(setup, s, b, s');
    UnshadowedFailureTold(setup, s, b, FailedSources(b), Records(s'), OwnersOf(b), m, k);
  }

  /** A source of a led file is never skipped without being canonical: all of its file would be selected. */
  lemma SkippedIsCanonical(setup: Setup, s: State, b: Build, k: nat)
    requires Inv(setup, s) && Sane(setup, b.rule) && Chosen(setup, s, b, k)
             && !FileAttempted(setup, s, b, Place(setup, k))
    ensures IsCanonical(setup, k) || !Led(setup, b.rule, k)
  {
    if Led(setup, b.rule, k) {
      var m: nat :| Place(setup, m) == Place(setup, k) && Unshadowed(setup, b.rule, m);
      NotAttempted(setup, s, b, Place(setup, k), m);
    }
    if !IsCanonical(setup, k) { OthersNeedAll(setup, s, b, k); }
  }

  /** The failed interface that kept a source from being compiled. */
  lemma Culprit(setup: Setup, s: State, b: Build, k: nat) returns (j: nat)
    requires Sane(setup, b.rule) && Chosen(setup, s, b, k) && !FileAttempted(setup, s, b, Place(setup, k))
    ensures !b.rule.IsInterface(k) && b.rule.IsInterface(j) && Broken(b.rule, Out(setup, s, b), b.cc, j)
    ensures Place(setup, j) != Place(setup, k)
  {
    NotAttempted(setup, s, b, Place(setup, k), k);
    j :| b.rule.IsInterface(j) && Selected(b.rule, Out(setup, s, b), j) && Bad(b.cc, j);
    NotAttempted(setup, s, b, Place(setup, k), j);
  }

  lemma CulpritIsLed(setup: Setup, s: State, before: Rule, b: Build, j: nat, k: nat)
    requires Inv(setup, s) && (Records(s) != [] ==> Laid(setup, before, Records(s))) && Sane(setup, b.rule)
    requires Called(setup, s, b) && Chosen(setup, s, b, k) && Chosen(setup, s, b, j)
    requires Safe(setup, before, b.rule, k) && IsCanonical(setup, k) && !FileAttempted(setup, s, b, Place(setup, k))
    requires !b.rule.IsInterface(k) && b.rule.IsInterface(j) && Place(setup, j) != Place(setup, k)
    ensures Led(setup, b.rule, j)
  {
    assert Heeded(setup, before, b.rule, k, j);
    if HasInterface(setup, b.rule, k) { BothMasked(setup, s, before, b, j, k); }
  }

  lemma NotAttempted(setup: Setup, s: State, b: Build, place: string, k: nat)
    requires !FileAttempted(setup, s, b, place)
    ensures Place(setup, k) == place && Selected(b.rule, Out(setup, s, b), k) ==>
              !b.rule.IsInterface(k) && BadInterface(b.rule, Out(setup, s, b), b.cc)
  {
    if Place(setup, k) == place { assert !Attempted(b.rule, Out(setup, s, b), b.cc, k); }
  }

  /** An interface that keeps the object of another file from being built is then masked along with it. */
  lemma BothMasked(setup: Setup, s: State, before: Rule, b: Build, j: nat, k: nat)
    requires Inv(setup, s) && (Records(s) != [] ==> Laid(setup, before, Records(s))) && Sane(setup, b.rule)
    requires Called(setup, s, b) && Chosen(setup, s, b, k) && Chosen(setup, s, b, j)
    requires Place(setup, j) != Place(setup, k) && HasInterface(setup, b.rule, k)
             && !FileAttempted(setup, s, b, Place(setup, k))
    ensures IsCanonical(setup, j) && MaskedPair(setup, before, Place(setup, k), Place(setup, j))
  {
    var x: nat :| Place(setup, x) == Place(setup, k) && b.rule.IsInterface(x);
    NotAttempted(setup, s, b, Place(setup, k), x);
    var a := NamedBySource(setup, s, b, k);
    var c := NamedBySource(setup, s, b, j);
    var recs := Records(s);
    var owners: seq<Option<nat>> :| Arranged(setup, before, recs, owners);
    forall y: nat ensures Masked(setup, before, Place(setup, k), Place(setup, j), y)
                          && Masked(setup, before, Place(setup, j), Place(setup, k), y) {
      if y < |setup.sources| {
        PairIsMasked(setup, before, recs, owners, WorldOf(setup, s, b), b.rule.vals, a, c, y);
        PairIsMasked(setup, before, recs, owners, WorldOf(setup, s, b), b.rule.vals, c, a, y);
      }
    }
  }

  /** After a build the file of a safe source is up to date and recorded so, or a failure is told on the source. */
  lemma BuildTracks(setup: Setup, s: State, before: Rule, b: Build, s': State, k: nat)
    requires Inv(setup, s) && (Records(s) != [] ==> Laid(setup, before, Records(s))) && Tracked(setup, s, k)
    requires BuildStep(setup, s, b, s') && Called(setup, s, b) && Safe(setup, before, b.rule, k)
    ensures Tracked(setup, s', k)
  {
    var place, recs, owners := Place(setup, k), Records(s'), OwnersOf(b);
    assert Rebuilt(setup, s, b, s', place) && Listed(setup, s, place);
    BuildLeaves(setup, s, b, s');
    if k in FailedSources(b) {
      OwnFailureTold(setup, s, b, recs, owners, k);
    } else if !FileAttempted(setup, s, b, place) && Selected(b.rule, Out(setup, s, b), k) {
      SkipIsTold(setup, s, before, b, s', k);
    } else {
      BrokenFileIsMarked(setup, s, b, s', k);
      RecordsCover(setup, s, b, recs, owners, k);
      if !FileAttempted(setup, s, b, place) {
        if StaleObject(s, place) { StaleIsChosen(setup, s, b, k); }
        CurrentTimes(setup, s, b.headers, place);
      }
    }
  }

  lemma BrokenFileIsMarked(setup: Setup, s: State, b: Build, s': State, k: nat)
    requires BuildStep(setup, s, b, s') && Called(setup, s, b) && k < |setup.sources|
    ensures FileBroken(setup, s, b, Place(setup, k)) ==> k in FailedSources(b)
    ensures FileBroken(setup, s, b, Place(setup, k)) ==> FileAttempted(setup, s, b, Place(setup, k))
  {
    if FileBroken(setup, s, b, Place(setup, k)) {
      var x: nat :| Place(setup, x) == Place(setup, k) && Broken(b.rule, Out(setup, s, b), b.cc, x);
      BrokenIsMarked(setup, s, b, s', x);
      SameFileFails(setup, b, x, k);
    }
  }

  /** After a build every source record belongs to a file that is stale, has failed, or is built as recorded. */
  lemma BuildAccounts(setup: Setup, s: State, b: Build, s': State, i: nat)
    requires Inv(setup, s) && BuildStep(setup, s, b, s') && Called(setup, s, b)
    ensures Accounted(setup, s', i)
  {
    BuildLeaves(setup, s, b, s');
    var recs := Records(s');
    if i < |recs| && recs[i].flags == 's' {
      assert OwnedAt(setup, s, b, FailedSources(b), recs, OwnersOf(b), i);
      NewExplained(setup, s, b, s', recs[i], OwnersOf(b)[i].value, i);
    }
  }

  lemma NewExplained(setup: Setup, s: State, b: Build, s': State, r: Record, q: nat, i: nat)
    requires Inv(setup, s) && BuildStep(setup, s, b, s') && Called(setup, s, b)
    requires i < |Records(s')| && r == Records(s')[i] && OwnedBy(setup, s, b, FailedSources(b), r, q)
    ensures ExplainedBy(setup, s', r, Place(setup, q))
  {
    var place := Place(setup, q);
    assert Rebuilt(setup, s, b, s', place) && Listed(setup, s, place);
    BrokenFileIsMarked(setup, s, b, s', q);
    if q !in FailedSources(b) && !FileAttempted(setup, s, b, place) && !StaleObject(s, place) {
      CurrentTimes(setup, s, b.headers, place);
    }
  }

  lemma BuildKeeps(setup: Setup, s: State, b: Build, s': State)
    requires Inv(setup, s) && BuildStep(setup, s, b, s')
    ensures Inv(setup, s')
  {
    if Called(setup, s, b) {
      BuildLeaves(setup, s, b, s');
      forall i: nat ensures PlainSource(Records(s'), setup.cacheDir, i) {
        NewPlain(setup, s, b, s', i);
      }
      forall i: nat ensures Accounted(setup, s', i) { BuildAccounts(setup, s, b, s', i); }
      forall p: string ensures PastTimes(s', p) && Listed(setup, s', p) {
        assert Rebuilt(setup, s, b, s', p) && PastTimes(s, p) && Listed(setup, s, p);
        NewTimes(setup, s, b, s', p);
      }
    }
  }

  lemma NewPlain(setup: Setup, s: State, b: Build, s': State, i: nat)
    requires BuildStep(setup, s, b, s') && Called(setup, s, b)
    ensures PlainSource(Records(s'), setup.cacheDir, i)
  {
    BuildLeaves(setup, s, b, s');
    assert OwnedAt(setup, s, b, FailedSources(b), Records(s'), OwnersOf(b), i);
    if i < |Records(s')| && OwnersOf(b)[i].Some? {
      NormalIdempotent(setup.sources[OwnersOf(b)[i].value], setup.cacheDir, setup.cacheDir);
    }
  }

  /** Later times make no object current again. */
  lemma StaleStays(setup: Setup, s: State, s': State, place: string)
    requires PastTimes(s, place) && s'.built == s.built && StaleObject(s, place)
    requires forall f | f in s'.files :: (f in s.files && s'.files[f] == s.files[f]) || s'.files[f] > s.clock
    ensures StaleObject(s', place)
  {
    if place in s.built {
      var f :| f in s.built[place] && !(f in s.files && s.files[f] == s.built[place][f]);
      assert !(f in s'.files && s'.files[f] == s'.built[place][f]);
    }
  }

  /** Edits and removals of files keep the invariant. */
  lemma FilesKeep(setup: Setup, s: State, s': State)
    requires Inv(setup, s) && Ticking(s') && s'.built == s.built && s'.lists == s.lists && s'.content == s.content
    requires s'.clock >= s.clock
    requires forall f | f in s'.files :: (f in s.files && s'.files[f] == s.files[f]) || s'.files[f] > s.clock
    ensures Inv(setup, s')
  {
    forall p: string ensures PastTimes(s', p) && Listed(setup, s', p) {
      assert PastTimes(s, p) && Listed(setup, s, p);
    }
    forall i: nat ensures PlainSource(Records(s'), setup.cacheDir, i) {
      assert PlainSource(Records(s), setup.cacheDir, i);
    }
    forall i: nat ensures Accounted(setup, s', i) {
      assert Accounted(setup, s, i);
      if i < |Records(s)| && Records(s)[i].flags == 's' {
        var place := Text(Records(s)[i].resource);
        assert PastTimes(s, place);
        if StaleObject(s, place) { StaleStays(setup, s, s', place); }
      }
    }
  }

  lemma StepKeeps(setup: Setup, s: State, e: Incremental.Event, s': State)
    requires Inv(setup, s) && Incremental.Step(setup, s, e, s')
    ensures Inv(setup, s')
  {
    match e
    case Edited(path, time) => FilesKeep(setup, s, s');
    case Removed(path) => FilesKeep(setup, s, s');
    case Built(b) => BuildKeeps(setup, s, b, s');
  }

  // ---------------------------------------------------------------- histories

  lemma {:induction false} AlwaysInv(setup: Setup, states: seq<State>, events: seq<Incremental.Event>, i: nat)
    requires History(setup, states, events) && i < |states|
    ensures Inv(setup, states[i])
  {
    if i == 0 {
      forall p: string ensures PastTimes(states[0], p) && Listed(setup, states[0], p) {}
    } else {
      AlwaysInv(setup, states, events, i - 1);
      assert StepAt(setup, states, events, i - 1);
      StepKeeps(setup, states[i - 1], events[i - 1], states[i]);
    }
  }

  ghost predicate SafeAt(setup: Setup, events: seq<Incremental.Event>, i: nat, k: nat, w: nat, x: nat) {
    w <= x < i && x < |events| && events[w].Built? && events[x].Built? ==>
      Safe(setup, events[w].build.rule, events[x].build.rule, k)
  }

  /** The source was safe in every build before event `i`, whichever earlier build made the records. */
  ghost predicate SafeBefore(setup: Setup, events: seq<Incremental.Event>, i: nat, k: nat) {
    forall w: nat, x: nat :: SafeAt(setup, events, i, k, w, x)
  }

  ghost predicate LaidBy(setup: Setup, events: seq<Incremental.Event>, recs: seq<Record>, i: nat, w: nat) {
    w < i && w < |events| && events[w].Built? && Laid(setup, events[w].build.rule, recs)
  }

  /** The records were written by an earlier build. */
  lemma {:induction false} SomeBuildWrote(setup: Setup, states: seq<State>, events: seq<Incremental.Event>, i: nat)
    requires History(setup, states, events) && i < |states|
    ensures Records(states[i]) != [] ==> exists w: nat :: LaidBy(setup, events, Records(states[i]), i, w)
  {
    if i > 0 && Records(states[i]) != [] {
      var m := i - 1;
      SomeBuildWrote(setup, states, events, m);
      assert StepAt(setup, states, events, m);
      if events[m].Built? && Called(setup, states[m], events[m].build) {
        BuildArranges(setup, states[m], events[m].build, states[i]);
        assert LaidBy(setup, events, Records(states[i]), i, m);
      } else {
        NothingRecorded(setup, states[m], events[m], states[i]);
        var w: nat :| LaidBy(setup, events, Records(states[m]), m, w);
        assert LaidBy(setup, events, Records(states[i]), i, w);
      }
    }
  }

  lemma NothingRecorded(setup: Setup, s: State, e: Incremental.Event, s': State)
    requires Incremental.Step(setup, s, e, s') && (e.Built? ==> !Called(setup, s, e.build))
    ensures Records(s') == Records(s) && s'.built == s.built
  {
  }

  lemma {:induction false} AlwaysTracked(setup: Setup, states: seq<State>, events: seq<Incremental.Event>, i: nat,
                                         k: nat)
    requires History(setup, states, events) && i < |states| && SafeBefore(setup, events, i, k)
    ensures Tracked(setup, states[i], k)
  {
    if i > 0 {
      var m := i - 1;
      forall w: nat, x: nat ensures SafeAt(setup, events, m, k, w, x) { assert SafeAt(setup, events, i, k, w, x); }
      AlwaysTracked(setup, states, events, m, k);
      AlwaysInv(setup, states, events, m);
      assert StepAt(setup, states, events, m);
      if events[m].Built? && Called(setup, states[m], events[m].build) {
        var w := Writer(setup, states, events, m);
        assert SafeAt(setup, events, i, k, w, m);
        BuildTracks(setup, states[m], events[w].build.rule, events[m].build, states[i], k);
      } else {
        NothingRecorded(setup, states[m], events[m], states[i]);
      }
    }
  }

  /** The build whose records build `i` reads; itself if there are none. */
  lemma Writer(setup: Setup, states: seq<State>, events: seq<Incremental.Event>, i: nat) returns (w: nat)
    requires History(setup, states, events) && i < |events| && events[i].Built?
    ensures w <= i && events[w].Built?
            && (Records(states[i]) != [] ==> Laid(setup, events[w].build.rule, Records(states[i])))
  {
    SomeBuildWrote(setup, states, events, i);
    w := i;
    if Records(states[i]) != [] { w :| LaidBy(setup, events, Records(states[i]), i, w); }
  }

  lemma OnlyBuildsRecord(setup: Setup, s: State, e: Incremental.Event, s': State)
    requires Incremental.Step(setup, s, e, s') && !e.Built?
    ensures Records(s') == Records(s) && s'.built == s.built
  {
  }

  /**
   In every history of edits, removals and builds, each build compiles each source that has a stale object and was
   safe in the builds before.
   */
  lemma EveryBuild(setup: Setup, states: seq<State>, events: seq<Incremental.Event>, i: nat, k: nat)
    requires History(setup, states, events) && i < |events| && events[i].Built?
    requires k < |setup.sources| && SafeBefore(setup, events, i, k) && StaleObject(states[i], Place(setup, k))
    ensures Chosen(setup, states[i], events[i].build, k)
  {
    AlwaysInv(setup, states, events, i);
    AlwaysTracked(setup, states, events, i, k);
    assert StepAt(setup, states, events, i);
    SaneBuild(setup, states[i], events[i].build, states[i + 1]);
    StaleIsChosen(setup, states[i], events[i].build, k);
  }

  lemma SaneBuild(setup: Setup, s: State, b: Build, s': State)
    requires BuildStep(setup, s, b, s')
    ensures Sane(setup, b.rule)
  {
  }

  /**
   In every history each build, unless it compiles everything, compiles only sources with a stale object or a
   recorded failure.
   */
  lemma EveryBuildIsPrecise(setup: Setup, states: seq<State>, events: seq<Incremental.Event>, i: nat, k: nat)
    requires History(setup, states, events) && i < |events| && events[i].Built?
    requires Chosen(setup, states[i], events[i].build, k) && !All(Out(setup, states[i], events[i].build))
    ensures StaleObject(states[i], Place(setup, k)) || FailedIn(Records(states[i]), Place(setup, k))
  {
    AlwaysInv(setup, states, events, i);
    assert StepAt(setup, states, events, i);
    SaneBuild(setup, states[i], events[i].build, states[i + 1]);
    OnlyAffected(setup, states[i], events[i].build, k);
  }

  /** A build in which nothing fails leaves no object of a safe source stale. */
  lemma GoodBuildIsCurrent(setup: Setup, states: seq<State>, events: seq<Incremental.Event>, i: nat, k: nat)
    requires History(setup, states, events) && i < |events| && events[i].Built?
    requires k < |setup.sources| && SafeBefore(setup, events, i, k)
    requires forall f | f in Watched(setup, states[i + 1].lists, Place(setup, k)) :: f in states[i].files
    requires forall j: nat :: !Bad(events[i].build.cc, j)
    ensures !StaleObject(states[i + 1], Place(setup, k))
  {
    var s, b, s' := states[i], events[i].build, states[i + 1];
    if StaleObject(s, Place(setup, k)) { EveryBuild(setup, states, events, i, k); }
    assert StepAt(setup, states, events, i);
    GoodStepIsCurrent(setup, s, b, s', k);
  }

  lemma GoodStepIsCurrent(setup: Setup, s: State, b: Build, s': State, k: nat)
    requires BuildStep(setup, s, b, s') && (StaleObject(s, Place(setup, k)) ==> Chosen(setup, s, b, k))
    requires forall f | f in Watched(setup, s'.lists, Place(setup, k)) :: f in s.files
    requires forall j: nat :: !Bad(b.cc, j)
    ensures !StaleObject(s', Place(setup, k))
  {
    var place := Place(setup, k);
    if Called(setup, s, b) {
      assert Rebuilt(setup, s, b, s', place) && !FileBroken(setup, s, b, place);
      if FileAttempted(setup, s, b, place) {
        BuiltIsCurrent(s', place, Watched(setup, b.headers, place));
      } else {
        NotAttempted(setup, s, b, place, k);
      }
    }
  }

  lemma BuiltIsCurrent(s: State, place: string, watched: set<string>)
    requires place in s.built && s.built[place] == Times(s.files, watched) && forall f | f in watched :: f in s.files
    ensures !StaleObject(s, place)
  {
  }

  // ---------------------------------------------------------------- what was left undone

  ghost predicate NoBuildAt(events: seq<Incremental.Event>, i: nat, j: nat, x: nat) {
    i < x < j && x < |events| ==> !events[x].Built?
  }

  ghost predicate Quiet(events: seq<Incremental.Event>, i: nat, j: nat) {
    i < j <= |events| && forall x: nat :: NoBuildAt(events, i, j, x)
  }

  lemma {:induction false} RecordsStay(setup: Setup, states: seq<State>, events: seq<Incremental.Event>, i: nat, j: nat)
    requires History(setup, states, events) && Quiet(events, i, j)
    ensures Records(states[j]) == Records(states[i + 1])
    decreases j
  {
    if i + 1 < j {
      var m := j - 1;
      forall x: nat ensures NoBuildAt(events, i, m, x) { assert NoBuildAt(events, i, j, x); }
      RecordsStay(setup, states, events, i, m);
      assert NoBuildAt(events, i, j, m) && StepAt(setup, states, events, m);
      OnlyBuildsRecord(setup, states[m], events[m], states[j]);
    }
  }

  /**
   When a safe source was selected, but its file failed or was skipped, the next build compiles the source, whatever
   had made it selected.
   */
  lemma UndoneIsRetried(setup: Setup, states: seq<State>, events: seq<Incremental.Event>, i: nat, j: nat, k: nat)
    requires History(setup, states, events) && Quiet(events, i, j) && j < |events| && events[i].Built?
             && events[j].Built?
    requires Chosen(setup, states[i], events[i].build, k) && SafeBefore(setup, events, i + 1, k)
    requires Undone(setup, states[i], events[i].build, Place(setup, k))
    ensures Chosen(setup, states[j], events[j].build, k)
  {
    UndoneLeavesFailure(setup, states, events, i, k);
    AlwaysInv(setup, states, events, j);
    assert StepAt(setup, states, events, j);
    RecordsStay(setup, states, events, i, j);
    SaneBuild(setup, states[j], events[j].build, states[j + 1]);
    FailureIsChosen(setup, states[j], events[j].build, k);
  }

  ghost predicate Undone(setup: Setup, s: State, b: Build, place: string) {
    !FileAttempted(setup, s, b, place) || FileBroken(setup, s, b, place)
  }

  lemma UndoneLeavesFailure(setup: Setup, states: seq<State>, events: seq<Incremental.Event>, i: nat, k: nat)
    requires History(setup, states, events) && i < |events| && events[i].Built?
    requires Chosen(setup, states[i], events[i].build, k) && SafeBefore(setup, events, i + 1, k)
    requires Undone(setup, states[i], events[i].build, Place(setup, k))
    ensures k < |setup.sources| && FailureTold(setup, Records(states[i + 1]), k)
  {
    var w := Writer(setup, states, events, i);
    var n := i + 1;
    assert SafeAt(setup, events, n, k, w, i) && StepAt(setup, states, events, i);
    AlwaysInv(setup, states, events, i);
    UndoneIsTold(setup, states[i], events[w].build.rule, events[i].build, states[n], k);
  }

  lemma UndoneIsTold(setup: Setup, s: State, before: Rule, b: Build, s': State, k: nat)
    requires Inv(setup, s) && (Records(s) != [] ==> Laid(setup, before, Records(s)))
    requires BuildStep(setup, s, b, s') && Chosen(setup, s, b, k) && Safe(setup, before, b.rule, k)
    requires Undone(setup, s, b, Place(setup, k))
    ensures FailureTold(setup, Records(s'), k)
  {
    if FileBroken(setup, s, b, Place(setup, k)) {
      BrokenFileIsMarked(setup, s, b, s', k);
      BuildLeaves(setup, s, b, s');
      OwnFailureTold(setup, s, b, Records(s'), OwnersOf(b), k);
    } else {
      SkipIsTold(setup, s, before, b, s', k);
    }
  }
}
