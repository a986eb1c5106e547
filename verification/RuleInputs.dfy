/**
 When the next build looks at a rule again: exactly when something the last one recorded is not as it was,
 or something failed. Whatever is no plain source makes it compile everything.
 */
module RuleInputs {
  import opened Options
  import opened PathAlgebra
  import opened DepsFormat
  import opened DepsFile
  import opened NodeResolve
  import opened CompileLoop
  import opened CcRule
  import opened Incremental
  import opened Rebuilds
  import Paths

  // ---------------------------------------------------------------- what a caller can see

  /** The file is gone, or newer than it was. */
  ghost predicate Newer(s: State, s2: State, f: string) {
    f !in s2.files || s2.files[f] > (if f in s.files then s.files[f] else 0)
  }

  ghost predicate FileChanged(setup: Setup, s: State, s2: State, path: string) {
    Newer(s, s2, Text(Canonical(path, setup.cacheDir)))
  }

  ghost predicate SomeFile(setup: Setup, s: State, s2: State, paths: seq<string>) {
    exists i | 0 <= i < |paths| :: FileChanged(setup, s, s2, paths[i])
  }

  ghost predicate ValueChanged(vals: Values, vals2: Values, i: nat) {
    i < |vals| && vals[i].Some? && !(i < |vals2| && vals2[i] == vals[i])
  }

  /** The file of the source failed, or the file or one of its headers is not as it was. */
  ghost predicate SourceChanged(setup: Setup, s: State, b: Build, s2: State, k: nat) {
    k < |setup.sources| &&
    if FileBroken(setup, s, b, Place(setup, k)) then
      Place(setup, k) !in s2.files || s2.files[Place(setup, k)] > 0
    else exists f | f in Watched(setup, b.headers, Place(setup, k)) :: Newer(s, s2, f)
  }

  function EnvValue(b: Build, key: string): string {
    if key in b.sysEnv then b.sysEnv[key] else ""
  }

  ghost predicate TargetChanged(setup: Setup, s: State, b: Build, s2: State, b2: Build) {
    || (b.target == None && b2.target.Some?)
    || (b.target.Some? && EnvValue(b2, "AUTARK_TARGET") != b.target.value)
    || (b.target.Some? && b.toolchain.Some? &&
        (EnvValue(b2, "AUTARK_TOOLCHAIN") != b.toolchain.value || FileChanged(setup, s, s2, b.toolchain.value)))
  }

  ghost predicate NothingNamed(b: Build) {
    && b.rule.unitFiles == [] && b.rule.consumes == [] && b.rule.sources == [] && b.rule.moduleFiles == []
    && (forall i | 0 <= i < |b.rule.vals| :: b.rule.vals[i] == None) && b.target == None
  }

  /** Something named by the rule of build `b` is not as it was then. */
  ghost predicate SomethingChanged(setup: Setup, s: State, b: Build, s2: State, b2: Build) {
    || SomeFile(setup, s, s2, b.rule.unitFiles)
    || (exists i: nat :: ValueChanged(b.rule.vals, b2.rule.vals, i))
    || SomeFile(setup, s, s2, b.rule.consumes)
    || (exists k: nat :: SourceChanged(setup, s, b, s2, k))
    || SomeFile(setup, s, s2, b.rule.moduleFiles)
    || TargetChanged(setup, s, b, s2, b2)
    || NothingNamed(b)
  }

  // ---------------------------------------------------------------- entry by entry

  ghost predicate AnyExpired(es: seq<Entry>, world: World, world2: World, vals2: Values) {
    exists i: nat :: ExpiredAt(es, world, world2, vals2, i)
  }

  lemma ExpiredIn(es: seq<Entry>, fs: seq<Entry>, world: World, world2: World, vals2: Values)
    ensures AnyExpired(es + fs, world, world2, vals2) <==>
              AnyExpired(es, world, world2, vals2) || AnyExpired(fs, world, world2, vals2)
  {
    var both := es + fs;
    if i: nat :| ExpiredAt(both, world, world2, vals2, i) {
      if i < |es| {
        assert ExpiredAt(es, world, world2, vals2, i);
      } else {
        var j := i - |es|;
        assert ExpiredAt(fs, world, world2, vals2, j);
      }
    }
    if i: nat :| ExpiredAt(es, world, world2, vals2, i) { assert ExpiredAt(both, world, world2, vals2, i); }
    if j: nat :| ExpiredAt(fs, world, world2, vals2, j) {
      var i := |es| + j;
      assert ExpiredAt(both, world, world2, vals2, i);
    }
  }

  lemma OneExpired(e: Entry, world: World, world2: World, vals2: Values)
    ensures AnyExpired([e], world, world2, vals2) <==> Expired(e, world, world2, vals2)
  {
    assert Expired(e, world, world2, vals2) ==> ExpiredAt([e], world, world2, vals2, 0);
  }

  ghost predicate Surrounds(setup: Setup, s: State, world: World) {
    world.files == s.files && world.cwd == setup.cacheDir
  }

  lemma FilesExpire(setup: Setup, s: State, s2: State, paths: seq<string>, world: World, world2: World, vals2: Values)
    requires Surrounds(setup, s, world) && world2.files == s2.files
    ensures AnyExpired(FileEntries(paths), world, world2, vals2) <==> SomeFile(setup, s, s2, paths)
  {
    var es := FileEntries(paths);
    forall i: nat | i < |paths| ensures ExpiredAt(es, world, world2, vals2, i) <==>
      FileChanged(setup, s, s2, paths[i]) {}
    if i: nat :| ExpiredAt(es, world, world2, vals2, i) { assert FileChanged(setup, s, s2, paths[i]); }
    if i :| 0 <= i < |paths| && FileChanged(setup, s, s2, paths[i]) { assert ExpiredAt(es, world, world2, vals2, i); }
  }

  ghost predicate ValueFrom(vals: Values, vals2: Values, n: nat) {
    exists i: nat :: n <= i && ValueChanged(vals, vals2, i)
  }

  lemma ValueHere(vals: Values, vals2: Values, n: nat)
    ensures ValueFrom(vals, vals2, n) <==> ValueChanged(vals, vals2, n) || ValueFrom(vals, vals2, n + 1)
  {
  }

  lemma ValueExpires(v: Option<string>, n: nat, rest: seq<Entry>, world: World, world2: World, vals2: Values)
    ensures var es := (if v.Some? then [Entry(NODE_VALUE, NUL, v.value, "", n)] else []) + rest;
            AnyExpired(es, world, world2, vals2) <==>
              (v.Some? && !(n < |vals2| && vals2[n] == v)) || AnyExpired(rest, world, world2, vals2)
  {
    if v.Some? {
      var e := Entry(NODE_VALUE, NUL, v.value, "", n);
      ExpiredIn([e], rest, world, world2, vals2);
      OneExpired(e, world, world2, vals2);
    } else {
      assert [] + rest == rest;
    }
  }

  lemma {:induction false} ValuesExpire(vals: Values, n: nat, world: World, world2: World, vals2: Values)
    ensures AnyExpired(ValueEntries(vals, n), world, world2, vals2) <==> ValueFrom(vals, vals2, n)
    decreases |vals| - n
  {
    if n < |vals| {
      ValuesExpire(vals, n + 1, world, world2, vals2);
      ValueHere(vals, vals2, n);
      ValueExpires(vals[n], n, ValueEntries(vals, n + 1), world, world2, vals2);
    }
  }

  lemma {:induction false} BlocksExpire(n: nat, f: nat -> seq<Entry>, world: World, world2: World, vals2: Values)
    ensures AnyExpired(Flatten(n, f), world, world2, vals2) <==>
              exists k: nat :: k < n && AnyExpired(f(k), world, world2, vals2)
  {
    if n > 0 {
      BlocksExpire(n - 1, f, world, world2, vals2);
      ExpiredIn(Flatten(n - 1, f), f(n - 1), world, world2, vals2);
    }
  }

  lemma {:induction false} HeadersExpire(setup: Setup, s: State, s2: State, src: string, flag: char,
                                         headers: seq<string>, world: World, world2: World, vals2: Values)
    requires Surrounds(setup, s, world) && world2.files == s2.files
    ensures AnyExpired(HeaderEntries(src, flag, headers), world, world2, vals2) <==> SomeFile(setup, s, s2, headers)
  {
    if headers != [] {
      var rest := headers[1..];
      var e := Entry(ALIAS, flag, src, headers[0], 0);
      HeadersExpire(setup, s, s2, src, flag, rest, world, world2, vals2);
      ExpiredIn([e], HeaderEntries(src, flag, rest), world, world2, vals2);
      OneExpired(e, world, world2, vals2);
      assert Expired(e, world, world2, vals2) <==> FileChanged(setup, s, s2, headers[0]);
      FirstOrRest(setup, s, s2, headers);
    }
  }

  lemma FirstOrRest(setup: Setup, s: State, s2: State, paths: seq<string>)
    requires paths != []
    ensures SomeFile(setup, s, s2, paths) <==>
              FileChanged(setup, s, s2, paths[0]) || SomeFile(setup, s, s2, paths[1..])
  {
    var rest := paths[1..];
    if i :| 0 <= i < |paths| && FileChanged(setup, s, s2, paths[i]) {
      if i > 0 { assert rest[i - 1] == paths[i]; }
    }
    if i :| 0 <= i < |rest| && FileChanged(setup, s, s2, rest[i]) { assert paths[i + 1] == rest[i]; }
  }

  /** The paths in the failure map are those of the broken files. */
  lemma FailedIsBroken(setup: Setup, s: State, b: Build, k: nat)
    requires Sane(setup, b.rule) && Marks(b.fmap, b.rule, Out(setup, s, b), b.cc) && k < |setup.sources|
    ensures b.rule.CachePath(k) in b.fmap <==> FileBroken(setup, s, b, Place(setup, k))
  {
    assert MarkedPath(b.fmap, b.rule, Out(setup, s, b), b.cc, b.rule.CachePath(k));
    RecordedPlace(setup, b.rule, k);
    if x: nat :| Broken(b.rule, Out(setup, s, b), b.cc, x) && b.rule.CachePath(k) == b.rule.CachePath(x) {
      RecordedPlace(setup, b.rule, x);
    }
    if x: nat :| Place(setup, x) == Place(setup, k) && Broken(b.rule, Out(setup, s, b), b.cc, x) {
      RecordedPlace(setup, b.rule, x);
      assert b.rule.CachePath(x) == b.rule.CachePath(k);
    }
  }

  ghost predicate HeaderNamed(setup: Setup, b: Build, k: nat) {
    forall h | h in b.headers(Place(setup, k)) :: Canonical(h, setup.cacheDir).Some?
  }

  lemma WatchedExpires(setup: Setup, s: State, s2: State, b: Build, k: nat)
    requires HeaderNamed(setup, b, k)
    ensures (exists f | f in Watched(setup, b.headers, Place(setup, k)) :: Newer(s, s2, f)) <==>
              Newer(s, s2, Place(setup, k)) || SomeFile(setup, s, s2, b.headers(Place(setup, k)))
  {
    var place, headers := Place(setup, k), b.headers(Place(setup, k));
    if f :| f in Watched(setup, b.headers, place) && Newer(s, s2, f) {
      if f != place {
        var h :| h in headers && Canonical(h, setup.cacheDir) == Some(f);
        var i :| 0 <= i < |headers| && headers[i] == h;
        assert FileChanged(setup, s, s2, headers[i]);
      }
    }
    if i :| 0 <= i < |headers| && FileChanged(setup, s, s2, headers[i]) {
      assert headers[i] in headers;
      assert Text(Canonical(headers[i], setup.cacheDir)) in Watched(setup, b.headers, place);
    }
  }

  lemma SourceExpires(setup: Setup, s: State, b: Build, s2: State, k: nat, world: World, world2: World, vals2: Values)
    requires Sane(setup, b.rule) && Marks(b.fmap, b.rule, Out(setup, s, b), b.cc) && k < |setup.sources|
    requires Surrounds(setup, s, world) && world2.files == s2.files && HeaderNamed(setup, b, k)
    ensures AnyExpired(BlockOf(b)(k), world, world2, vals2) <==> SourceChanged(setup, s, b, s2, k)
  {
    var src, flag, headers := b.rule.CachePath(k), Flag(b.rule, k), ListsOf(b)(k);
    RecordedPlace(setup, b.rule, k);
    FailedIsBroken(setup, s, b, k);
    if src in b.fmap {
      OneExpired(Entry(FILE_OUTDATED, flag, src, "", 0), world, world2, vals2);
    } else {
      var e := Entry(FILE, flag, src, "", 0);
      ExpiredIn([e], HeaderEntries(src, flag, headers), world, world2, vals2);
      OneExpired(e, world, world2, vals2);
      HeadersExpire(setup, s, s2, src, flag, headers, world, world2, vals2);
      WatchedExpires(setup, s, s2, b, k);
    }
  }

  /** Every header on record has a canonical path. */
  lemma HeadersNamed(setup: Setup, s: State, b: Build, k: nat)
    requires Sane(setup, b.rule) && Marks(b.fmap, b.rule, Out(setup, s, b), b.cc) && k < |setup.sources|
    requires forall i: nat :: StorableAt(EntriesOf(b), WorldOf(setup, s, b), i)
    ensures FileBroken(setup, s, b, Place(setup, k)) || HeaderNamed(setup, b, k)
  {
    FailedIsBroken(setup, s, b, k);
    var src, flag, headers := b.rule.CachePath(k), Flag(b.rule, k), ListsOf(b)(k);
    if src !in b.fmap {
      forall h | h in headers ensures Canonical(h, setup.cacheDir).Some? {
        var e := Entry(ALIAS, flag, src, h, 0);
        HeaderEntriesHold(src, flag, headers, e);
        var i := BlockEntryAt(b, k, e);
        assert StorableAt(EntriesOf(b), WorldOf(setup, s, b), i);
      }
    }
  }

  lemma BlockEntryAt(b: Build, k: nat, e: Entry) returns (i: nat)
    requires k < |b.rule.sources| && e in BlockOf(b)(k)
    ensures i < |EntriesOf(b)| && EntriesOf(b)[i] == e
  {
    EntriesOwned(b);
    assert EntryReached(EntriesOf(b), OwnersOf(b), |b.rule.sources|, BlockOf(b), k, e);
    i :| i < |EntriesOf(b)| && i < |OwnersOf(b)| && EntriesOf(b)[i] == e && OwnersOf(b)[i] == Some(k);
  }

  lemma SourcesExpire(setup: Setup, s: State, b: Build, s2: State, world2: World, vals2: Values)
    requires Sane(setup, b.rule) && Marks(b.fmap, b.rule, Out(setup, s, b), b.cc) && world2.files == s2.files
    requires forall i: nat :: StorableAt(EntriesOf(b), WorldOf(setup, s, b), i)
    ensures AnyExpired(Flatten(|b.rule.sources|, BlockOf(b)), WorldOf(setup, s, b), world2, vals2) <==>
              exists k: nat :: SourceChanged(setup, s, b, s2, k)
  {
    var world, n := WorldOf(setup, s, b), |b.rule.sources|;
    BlocksExpire(n, BlockOf(b), world, world2, vals2);
    forall k: nat | k < n
      ensures AnyExpired(BlockOf(b)(k), world, world2, vals2) <==> SourceChanged(setup, s, b, s2, k)
    {
      HeadersNamed(setup, s, b, k);
      if HeaderNamed(setup, b, k) {
        SourceExpires(setup, s, b, s2, k, world, world2, vals2);
      } else {
        BrokenExpires(setup, s, b, s2, k, world, world2, vals2);
      }
    }
    if k: nat :| SourceChanged(setup, s, b, s2, k) {
      assert k < n && AnyExpired(BlockOf(b)(k), world, world2, vals2);
    }
  }

  lemma BrokenExpires(setup: Setup, s: State, b: Build, s2: State, k: nat, world: World, world2: World, vals2: Values)
    requires Sane(setup, b.rule) && Marks(b.fmap, b.rule, Out(setup, s, b), b.cc) && k < |setup.sources|
    requires Surrounds(setup, s, world) && world2.files == s2.files && FileBroken(setup, s, b, Place(setup, k))
    ensures AnyExpired(BlockOf(b)(k), world, world2, vals2) <==> SourceChanged(setup, s, b, s2, k)
  {
    RecordedPlace(setup, b.rule, k);
    FailedIsBroken(setup, s, b, k);
    OneExpired(Entry(FILE_OUTDATED, Flag(b.rule, k), b.rule.CachePath(k), "", 0), world, world2, vals2);
  }

  ghost predicate RecordedTargetChanged(setup: Setup, s: State, b: Build, s2: State, b2: Build) {
    b.target.Some? && TargetChanged(setup, s, b, s2, b2)
  }

  lemma TargetExpires(setup: Setup, s: State, b: Build, s2: State, b2: Build)
    ensures AnyExpired(ToolchainEntries(b.target, b.toolchain), WorldOf(setup, s, b), WorldOf(setup, s2, b2),
                       b2.rule.vals)
            <==> RecordedTargetChanged(setup, s, b, s2, b2)
  {
    var world, world2, vals2 := WorldOf(setup, s, b), WorldOf(setup, s2, b2), b2.rule.vals;
    if b.target.Some? {
      var e := Entry(SYS_ENV, NUL, b.target.value, AUTARK_TARGET, 0);
      ExpiredIn([e], DescriptorEntries(b.toolchain), world, world2, vals2);
      OneExpired(e, world, world2, vals2);
      if b.toolchain.Some? {
        var e1 := Entry(SYS_ENV, NUL, b.toolchain.value, AUTARK_TOOLCHAIN, 0);
        var e2 := Entry(FILE, NUL, b.toolchain.value, "", 0);
        ExpiredIn([e1], [e2], world, world2, vals2);
        OneExpired(e1, world, world2, vals2);
        OneExpired(e2, world, world2, vals2);
        assert DescriptorEntries(b.toolchain) == [e1] + [e2];
      }
    }
  }

  /** What is on record expires exactly when something has changed, the absence of a target aside. */
  lemma EntriesExpire(setup: Setup, s: State, b: Build, s2: State, b2: Build)
    requires Sane(setup, b.rule) && Marks(b.fmap, b.rule, Out(setup, s, b), b.cc)
    requires forall i: nat :: StorableAt(EntriesOf(b), WorldOf(setup, s, b), i)
    ensures AnyExpired(EntriesOf(b), WorldOf(setup, s, b), WorldOf(setup, s2, b2), b2.rule.vals) <==>
              || SomeFile(setup, s, s2, b.rule.unitFiles)
              || (exists i: nat :: ValueChanged(b.rule.vals, b2.rule.vals, i))
              || SomeFile(setup, s, s2, b.rule.consumes)
              || (exists k: nat :: SourceChanged(setup, s, b, s2, k))
              || SomeFile(setup, s, s2, b.rule.moduleFiles)
              || RecordedTargetChanged(setup, s, b, s2, b2)
  {
    var world, world2, vals2 := WorldOf(setup, s, b), WorldOf(setup, s2, b2), b2.rule.vals;
    var units, vals := FileEntries(b.rule.unitFiles), ValueEntries(b.rule.vals, 0);
    var consumes := FileEntries(b.rule.consumes);
    var sources := Flatten(|b.rule.sources|, BlockOf(b));
    var modules, target := FileEntries(b.rule.moduleFiles), ToolchainEntries(b.target, b.toolchain);
    EntriesInThree(b);
    ExpiredIn(units + vals + consumes + sources, modules + target, world, world2, vals2);
    ExpiredIn(units + vals + consumes, sources, world, world2, vals2);
    ExpiredIn(units + vals, consumes, world, world2, vals2);
    ExpiredIn(units, vals, world, world2, vals2);
    ExpiredIn(modules, target, world, world2, vals2);
    FilesExpire(setup, s, s2, b.rule.unitFiles, world, world2, vals2);
    FilesExpire(setup, s, s2, b.rule.consumes, world, world2, vals2);
    FilesExpire(setup, s, s2, b.rule.moduleFiles, world, world2, vals2);
    ValuesExpire(b.rule.vals, 0, world, world2, vals2);
    SourcesExpire(setup, s, b, s2, world2, vals2);
    TargetExpires(setup, s, b, s2, b2);
  }

  // ---------------------------------------------------------------- the next build

  lemma {:induction false} NoValues(vals: Values, n: nat)
    ensures ValueEntries(vals, n) == [] <==> forall i | n <= i < |vals| :: vals[i] == None
    decreases |vals| - n
  {
    if n < |vals| { NoValues(vals, n + 1); }
  }

  lemma NothingOnRecord(b: Build)
    ensures EntriesOf(b) == [] <==> NothingNamed(b)
  {
    EntriesInThree(b);
    NoValues(b.rule.vals, 0);
    var n := |b.rule.sources|;
    if n > 0 {
      BlockBegins(b, n - 1);
      assert Flatten(n, BlockOf(b)) != [];
    }
  }

  /** A target is on record exactly if the build had one. */
  lemma TargetOnRecord(b: Build)
    ensures (exists i: nat :: NamesTarget(EntriesOf(b), i)) <==> b.target.Some?
  {
    var es := EntriesOf(b);
    EntriesInThree(b);
    if b.target.Some? {
      var i := |Heading(b.rule) + Flatten(|b.rule.sources|, BlockOf(b)) + FileEntries(b.rule.moduleFiles)|;
      assert es[i] == Entry(SYS_ENV, NUL, b.target.value, AUTARK_TARGET, 0);
      assert NamesTarget(es, i);
    } else if i: nat :| NamesTarget(es, i) {
      KindsOf(b, es[i]);
    }
  }

  lemma KindsOf(b: Build, e: Entry)
    requires e in EntriesOf(b) && b.target == None
    ensures e.kind != SYS_ENV
  {
    EntriesInThree(b);
    ValueKinds(b.rule.vals, 0);
    if e in Flatten(|b.rule.sources|, BlockOf(b)) {
      var k := OfFlatten(|b.rule.sources|, BlockOf(b), e);
      var src := b.rule.CachePath(k);
      EntriesForHold(src, Flag(b.rule, k), src in b.fmap, ListsOf(b)(k), e);
    }
  }

  lemma {:induction false} ValueKinds(vals: Values, n: nat)
    ensures forall e | e in ValueEntries(vals, n) :: e.kind == NODE_VALUE
    decreases |vals| - n
  {
    if n < |vals| { ValueKinds(vals, n + 1); }
  }

  /** The records a build leaves are outdated when its entries have expired. */
  lemma StaleOnRecord(setup: Setup, s: State, b: Build, s': State, world2: World, vals2: Values, i: nat)
    requires BuildStep(setup, s, b, s') && Called(setup, s, b) && i < |EntriesOf(b)|
    ensures |Records(s')| == |EntriesOf(b)|
    ensures Stale(Records(s')[i], world2, vals2) <==> ExpiredAt(EntriesOf(b), WorldOf(setup, s, b), world2, vals2, i)
  {
    RecordExpires(EntriesOf(b), WorldOf(setup, s, b), world2, vals2, i);
  }

  lemma AnyOnRecord(setup: Setup, s: State, b: Build, s': State, world2: World, vals2: Values)
    requires BuildStep(setup, s, b, s') && Called(setup, s, b)
    ensures |Records(s')| == |EntriesOf(b)|
    ensures AnyStale(Records(s'), world2, vals2) <==> AnyExpired(EntriesOf(b), WorldOf(setup, s, b), world2, vals2)
    ensures TargetSeen(Records(s')) <==> exists i: nat :: NamesTarget(EntriesOf(b), i)
  {
    Reads(setup, s, b, s');
    FileExpires(EntriesOf(b), WorldOf(setup, s, b), world2, vals2);
  }

  /**
   After a build the rule is called again if and only if something that it named is not as it was: a script file, a
   value, a consumed file, a source or one of its headers, a module file, the target or its description; or a source
   failed, or a target is new, or nothing was named.
   */
  lemma NextIsCalled(setup: Setup, s: State, b: Build, s': State, s2: State, b2: Build)
    requires BuildStep(setup, s, b, s') && Called(setup, s, b) && s2.content == s'.content
    ensures Called(setup, s2, b2) <==> SomethingChanged(setup, s, b, s2, b2)
  {
    AnyOnRecord(setup, s, b, s', WorldOf(setup, s2, b2), b2.rule.vals);
    EntriesExpire(setup, s, b, s2, b2);
    NothingOnRecord(b);
    TargetOnRecord(b);
    assert Records(s2) == Records(s');
  }

  // ---------------------------------------------------------------- what makes it compile everything

  ghost predicate NoPlainOf(setup: Setup, rule: Rule, text: string, k: nat) {
    k < |setup.sources| && Place(setup, k) == text ==> rule.IsInterface(k)
  }

  /** No plain source has a file of that name. */
  ghost predicate Unclaimed(setup: Setup, rule: Rule, text: string) {
    forall k: nat :: NoPlainOf(setup, rule, text, k)
  }

  /** A record that is no source, behind no plain source of its name, leads. */
  lemma OtherLeads(setup: Setup, s: State, b: Build, failed: set<nat>, recs: seq<Record>, owners: seq<Option<nat>>,
                   i: nat, front: nat)
    requires NewFile(setup, s, b, failed, recs, owners) && i < |recs| && owners[i] == None
    requires forall x | 0 <= x < front && x < |owners| :: owners[x] == None
    requires i < front || Unclaimed(setup, b.rule, Text(recs[i].resource))
    ensures Leading(recs, i) && forall x | 0 <= x < |recs| :: recs[x].resource.Some?
  {
    forall x | 0 <= x < |recs| ensures recs[x].resource.Some? {
      assert OwnedAt(setup, s, b, failed, recs, owners, x);
    }
    assert OwnedAt(setup, s, b, failed, recs, owners, i);
    forall x: nat ensures NoSourceBefore(recs, i, x) {
      if x < i {
        assert OwnedAt(setup, s, b, failed, recs, owners, x);
        if owners[x].Some? { assert i >= front ==> NoPlainOf(setup, b.rule, Text(recs[i].resource), owners[x].value); }
      }
    }
  }

  /** The entry of such a record, expired, makes the next build compile everything. */
  lemma ExpiredIsAll(setup: Setup, s: State, b: Build, s': State, s2: State, b2: Build, i: nat)
    requires BuildStep(setup, s, b, s') && Called(setup, s, b) && s2.content == s'.content
    requires ExpiredAt(EntriesOf(b), WorldOf(setup, s, b), WorldOf(setup, s2, b2), b2.rule.vals, i)
    requires i < |OwnersOf(b)| && OwnersOf(b)[i] == None && i < |Records(s')|
    requires i < |Heading(b.rule)| || Unclaimed(setup, b.rule, Text(Records(s')[i].resource))
    ensures All(Out(setup, s2, b2))
  {
    LeadsOnRecord(setup, s, b, s', i);
    StaleOnRecord(setup, s, b, s', WorldOf(setup, s2, b2), b2.rule.vals, i);
    LeadingIsAll(Records(s'), i, WorldOf(setup, s2, b2), b2.rule.vals);
  }

  lemma HeadingUnowned(b: Build)
    ensures forall x | 0 <= x < |Heading(b.rule)| && x < |OwnersOf(b)| :: OwnersOf(b)[x] == None
  {
  }

  lemma LeadsOnRecord(setup: Setup, s: State, b: Build, s': State, i: nat)
    requires BuildStep(setup, s, b, s') && Called(setup, s, b)
    requires i < |OwnersOf(b)| && OwnersOf(b)[i] == None && i < |Records(s')|
    requires i < |Heading(b.rule)| || Unclaimed(setup, b.rule, Text(Records(s')[i].resource))
    ensures Leading(Records(s'), i) && forall x | 0 <= x < |Records(s')| :: Records(s')[x].resource.Some?
  {
    BuildLeaves(setup, s, b, s');
    HeadingUnowned(b);
    OtherLeads(setup, s, b, FailedSources(b), Records(s'), OwnersOf(b), i, |Heading(b.rule)|);
  }

  lemma InFront(front: seq<Entry>, es: seq<Entry>, i: nat, world: World, world2: World, vals2: Values)
    requires front <= es && ExpiredAt(front, world, world2, vals2, i)
    ensures ExpiredAt(es, world, world2, vals2, i)
  {
  }

  lemma HeadingExpires(setup: Setup, s: State, b: Build, s2: State, world2: World, vals2: Values) returns (i: nat)
    requires world2.files == s2.files
    requires || SomeFile(setup, s, s2, b.rule.unitFiles)
             || (exists x: nat :: ValueChanged(b.rule.vals, vals2, x))
             || SomeFile(setup, s, s2, b.rule.consumes)
    ensures i < |Heading(b.rule)| && ExpiredAt(EntriesOf(b), WorldOf(setup, s, b), world2, vals2, i)
  {
    var world := WorldOf(setup, s, b);
    var units, vals := FileEntries(b.rule.unitFiles), ValueEntries(b.rule.vals, 0);
    var consumes := FileEntries(b.rule.consumes);
    FilesExpire(setup, s, s2, b.rule.unitFiles, world, world2, vals2);
    FilesExpire(setup, s, s2, b.rule.consumes, world, world2, vals2);
    ValuesExpire(b.rule.vals, 0, world, world2, vals2);
    ExpiredIn(units + vals, consumes, world, world2, vals2);
    ExpiredIn(units, vals, world, world2, vals2);
    i :| ExpiredAt(Heading(b.rule), world, world2, vals2, i);
    EntriesInThree(b);
    InFront(Heading(b.rule), EntriesOf(b), i, world, world2, vals2);
  }

  /** A changed script file, value or consumed file makes the next build compile everything. */
  lemma HeadingIsAll(setup: Setup, s: State, b: Build, s': State, s2: State, b2: Build)
    requires BuildStep(setup, s, b, s') && Called(setup, s, b) && s2.content == s'.content
    requires || SomeFile(setup, s, s2, b.rule.unitFiles)
             || (exists i: nat :: ValueChanged(b.rule.vals, b2.rule.vals, i))
             || SomeFile(setup, s, s2, b.rule.consumes)
    ensures Called(setup, s2, b2) && forall k: nat | k < |b2.rule.sources| :: Chosen(setup, s2, b2, k)
  {
    NextIsCalled(setup, s, b, s', s2, b2);
    var i := HeadingExpires(setup, s, b, s2, WorldOf(setup, s2, b2), b2.rule.vals);
    Reads(setup, s, b, s');
    HeadingHasNoOwner(b, i);
    ExpiredIsAll(setup, s, b, s', s2, b2, i);
  }

  lemma HeadingHasNoOwner(b: Build, i: nat)
    requires i < |Heading(b.rule)|
    ensures i < |OwnersOf(b)| && OwnersOf(b)[i] == None
  {
  }

  /** Where an entry behind those of the sources stands. */
  lemma TrailingAt(b: Build, t: nat) returns (i: nat)
    requires t < |Trailing(b)|
    ensures i < |EntriesOf(b)| && EntriesOf(b)[i] == Trailing(b)[t] && i < |OwnersOf(b)| && OwnersOf(b)[i] == None
  {
    i := |Heading(b.rule)| + |Numbers(|b.rule.sources|, BlockOf(b))| + t;
    NumbersFit(|b.rule.sources|, BlockOf(b));
    EntriesInThree(b);
  }

  /**
   Such an entry, expired, makes the next build compile everything, unless a plain source of its name stands
   before it.
   */
  lemma TrailingIsAll(setup: Setup, s: State, b: Build, s': State, s2: State, b2: Build, t: nat)
    requires BuildStep(setup, s, b, s') && Called(setup, s, b) && s2.content == s'.content && t < |Trailing(b)|
    requires Expired(Trailing(b)[t], WorldOf(setup, s, b), WorldOf(setup, s2, b2), b2.rule.vals)
    requires Unclaimed(setup, b.rule, Text(RecordOf(Trailing(b)[t], WorldOf(setup, s, b)).resource))
    ensures All(Out(setup, s2, b2))
  {
    var i := TrailingAt(b, t);
    Reads(setup, s, b, s');
    assert ReadAt(EntriesOf(b), WorldOf(setup, s, b), Records(s'), i);
    assert ExpiredAt(EntriesOf(b), WorldOf(setup, s, b), WorldOf(setup, s2, b2), b2.rule.vals, i);
    ExpiredIsAll(setup, s, b, s', s2, b2, i);
  }

  /** So does a changed module file, unless a plain source of that name stands before it. */
  lemma ModuleIsAll(setup: Setup, s: State, b: Build, s': State, s2: State, b2: Build, m: nat)
    requires BuildStep(setup, s, b, s') && Called(setup, s, b) && s2.content == s'.content
    requires m < |b.rule.moduleFiles| && FileChanged(setup, s, s2, b.rule.moduleFiles[m])
    requires Unclaimed(setup, b.rule, Text(Canonical(b.rule.moduleFiles[m], setup.cacheDir)))
    ensures Called(setup, s2, b2) && forall k: nat | k < |b2.rule.sources| :: Chosen(setup, s2, b2, k)
  {
    NextIsCalled(setup, s, b, s', s2, b2);
    TrailingKept(setup, s, b, s', m);
    TrailingIsAll(setup, s, b, s', s2, b2, m);
  }

  lemma TrailingKept(setup: Setup, s: State, b: Build, s': State, t: nat)
    requires BuildStep(setup, s, b, s') && Called(setup, s, b) && t < |Trailing(b)|
    ensures Recordable(Trailing(b)[t], WorldOf(setup, s, b))
  {
    var i := TrailingAt(b, t);
    assert StorableAt(EntriesOf(b), WorldOf(setup, s, b), i);
  }

  /** The target and its description name no plain source. */
  ghost predicate TargetUnclaimed(setup: Setup, b: Build) {
    && Unclaimed(setup, b.rule, Text(b.target)) && Unclaimed(setup, b.rule, Text(b.toolchain))
    && Unclaimed(setup, b.rule, Text(Canonical(Text(b.toolchain), setup.cacheDir)))
  }

  /** A target or description that is not as recorded makes the next build compile everything. */
  lemma TargetIsAll(setup: Setup, s: State, b: Build, s': State, s2: State, b2: Build)
    requires BuildStep(setup, s, b, s') && Called(setup, s, b) && s2.content == s'.content
    requires b.target.Some? && TargetChanged(setup, s, b, s2, b2) && TargetUnclaimed(setup, b)
    ensures Called(setup, s2, b2) && forall k: nat | k < |b2.rule.sources| :: Chosen(setup, s2, b2, k)
  {
    NextIsCalled(setup, s, b, s', s2, b2);
    var n := |b.rule.moduleFiles|;
    var t := if EnvValue(b2, "AUTARK_TARGET") != b.target.value then n
             else if EnvValue(b2, "AUTARK_TOOLCHAIN") != b.toolchain.value then n + 1 else n + 2;
    TargetEntryAt(b);
    TrailingKept(setup, s, b, s', t);
    ShortEnough(Trailing(b)[t], WorldOf(setup, s, b));
    TrailingIsAll(setup, s, b, s', s2, b2, t);
  }

  lemma TargetEntryAt(b: Build)
    requires b.target.Some?
    ensures var n := |b.rule.moduleFiles|;
            && n < |Trailing(b)| && Trailing(b)[n] == Entry(SYS_ENV, NUL, b.target.value, AUTARK_TARGET, 0)
            && (b.toolchain.Some? ==>
                  && |Trailing(b)| == n + 3
                  && Trailing(b)[n + 1] == Entry(SYS_ENV, NUL, b.toolchain.value, AUTARK_TOOLCHAIN, 0)
                  && Trailing(b)[n + 2] == Entry(FILE, NUL, b.toolchain.value, "", 0))
  {
  }

  /** A text that fits the line is recorded uncut. */
  lemma ShortEnough(e: Entry, world: World)
    requires Recordable(e, world)
    ensures e.kind == SYS_ENV ==> RecordOf(e, world).resource == Some(e.resource)
    ensures e.kind == FILE ==> RecordOf(e, world).resource == Canonical(e.resource, world.cwd)
  {
  }

  // What a build leaves on record, place by place: script files, values, consumed files, sources, module files, target.

  ghost predicate OnRecord(b: Build, world: World, recs: seq<Record>) {
    && |recs| == |EntriesOf(b)|
    && (forall i: nat :: ReadAt(EntriesOf(b), world, recs, i)) && (forall i: nat :: StorableAt(EntriesOf(b), world, i))
  }

  lemma BuildRecords(setup: Setup, s: State, b: Build, s': State)
    requires BuildStep(setup, s, b, s') && Called(setup, s, b)
    ensures OnRecord(b, WorldOf(setup, s, b), Records(s'))
  {
    Reads(setup, s, b, s');
  }

  ghost predicate FileRecord(world: World, recs: seq<Record>, i: int, path: string) {
    && 0 <= i < |recs| && recs[i].kind == 'f' && recs[i].flags == ' '
    && recs[i].resource == Canonical(path, world.cwd)
  }

  lemma FileOnRecord(es: seq<Entry>, world: World, recs: seq<Record>, i: nat, path: string)
    requires |recs| == |es| && i < |es| && es[i] == Entry(FILE, NUL, path, "", 0) && ReadAt(es, world, recs, i)
    ensures FileRecord(world, recs, i, path)
  {
  }

  /** Script files are recorded first, in order and with their canonical paths. */
  lemma UnitsOnRecord(b: Build, world: World, recs: seq<Record>, i: nat)
    requires OnRecord(b, world, recs) && i < |b.rule.unitFiles|
    ensures FileRecord(world, recs, i, b.rule.unitFiles[i])
  {
    EntriesInThree(b);
    assert ReadAt(EntriesOf(b), world, recs, i);
    FileOnRecord(EntriesOf(b), world, recs, i, b.rule.unitFiles[i]);
  }

  /** How many of the values from `n` up to `i` are there. */
  function CountKnown(vals: Values, n: nat, i: nat): nat
    requires n <= i <= |vals|
  {
    if n == i then 0 else CountKnown(vals, n, i - 1) + if vals[i - 1].Some? then 1 else 0
  }

  lemma {:induction false} CountFirst(vals: Values, n: nat, i: nat)
    requires n < i <= |vals|
    ensures CountKnown(vals, n, i) == (if vals[n].Some? then 1 else 0) + CountKnown(vals, n + 1, i)
  {
    if n + 1 < i { CountFirst(vals, n, i - 1); }
  }

  lemma {:induction false} ValueAt(vals: Values, n: nat, i: nat)
    requires n <= i <= |vals|
    ensures |ValueEntries(vals, n)| == CountKnown(vals, n, |vals|)
            && CountKnown(vals, n, i) <= CountKnown(vals, n, |vals|)
    ensures i < |vals| && vals[i].Some? ==>
              && CountKnown(vals, n, i) < |ValueEntries(vals, n)|
              && ValueEntries(vals, n)[CountKnown(vals, n, i)] == Entry('v', NUL, vals[i].value, "", i)
    decreases |vals| - n
  {
    if n < |vals| {
      CountFirst(vals, n, |vals|);
      if n < i {
        CountFirst(vals, n, i);
        ValueAt(vals, n + 1, i);
      } else {
        ValueAt(vals, n + 1, n + 1);
      }
    }
  }

  /** An entry of a part of the file stands behind those before it. */
  lemma Inside(es: seq<Entry>, front: seq<Entry>, part: seq<Entry>, end: seq<Entry>, i: nat, at: nat)
    requires es == front + part + end && i < |part| && at == |front| + i
    ensures at < |es| && es[at] == part[i]
  {
  }

  /** The values that are there are recorded behind the script files, each with its number. */
  lemma ValuesOnRecord(b: Build, world: World, recs: seq<Record>, i: nat, at: nat)
    requires OnRecord(b, world, recs) && i < |b.rule.vals| && b.rule.vals[i].Some?
    requires at == |b.rule.unitFiles| + CountKnown(b.rule.vals, 0, i)
    ensures at < |recs| && recs[at] == Record('v', ' ', None, b.rule.vals[i], i)
  {
    var units, vals := FileEntries(b.rule.unitFiles), ValueEntries(b.rule.vals, 0);
    ValueAt(b.rule.vals, 0, i);
    EntriesApart(b);
    var end := FileEntries(b.rule.consumes) + Flatten(|b.rule.sources|, BlockOf(b)) + Trailing(b);
    Inside(EntriesOf(b), units, vals, end, CountKnown(b.rule.vals, 0, i), at);
    assert ReadAt(EntriesOf(b), world, recs, at) && StorableAt(EntriesOf(b), world, at);
    ValueUncut(EntriesOf(b)[at], world);
  }

  lemma EntriesApart(b: Build)
    ensures var units, vals := FileEntries(b.rule.unitFiles), ValueEntries(b.rule.vals, 0);
            var consumes, sources := FileEntries(b.rule.consumes), Flatten(|b.rule.sources|, BlockOf(b));
            && EntriesOf(b) == units + vals + (consumes + sources + Trailing(b))
            && EntriesOf(b) == (units + vals) + consumes + (sources + Trailing(b))
  {
    EntriesInThree(b);
    Regroup(FileEntries(b.rule.unitFiles), ValueEntries(b.rule.vals, 0), FileEntries(b.rule.consumes),
            Flatten(|b.rule.sources|, BlockOf(b)), Trailing(b));
  }

  lemma Regroup(a: seq<Entry>, b: seq<Entry>, c: seq<Entry>, d: seq<Entry>, e: seq<Entry>)
    ensures (a + b + c) + d + e == a + b + (c + d + e) && (a + b + c) + d + e == (a + b) + c + (d + e)
  {
  }

  lemma ValueUncut(e: Entry, world: World)
    requires Recordable(e, world) && e.kind == NODE_VALUE && e.flags == NUL
    ensures RecordOf(e, world) == Record(NODE_VALUE, ' ', None, Some(e.resource), e.serial)
  {
  }

  /** The consumed files are recorded behind the values, in order. */
  lemma ConsumesOnRecord(b: Build, world: World, recs: seq<Record>, i: nat, at: nat)
    requires OnRecord(b, world, recs) && i < |b.rule.consumes|
    requires at == |b.rule.unitFiles| + CountKnown(b.rule.vals, 0, |b.rule.vals|) + i
    ensures FileRecord(world, recs, at, b.rule.consumes[i])
  {
    var units, vals := FileEntries(b.rule.unitFiles), ValueEntries(b.rule.vals, 0);
    ValueAt(b.rule.vals, 0, |b.rule.vals|);
    EntriesApart(b);
    var end := Flatten(|b.rule.sources|, BlockOf(b)) + Trailing(b);
    Inside(EntriesOf(b), units + vals, FileEntries(b.rule.consumes), end, i, at);
    assert ReadAt(EntriesOf(b), world, recs, at);
    FileOnRecord(EntriesOf(b), world, recs, at, b.rule.consumes[i]);
  }

  /** Module files are recorded last, but for the target. */
  lemma ModulesOnRecord(b: Build, world: World, recs: seq<Record>, m: nat, at: nat)
    requires OnRecord(b, world, recs) && m < |b.rule.moduleFiles|
    requires at + |b.rule.moduleFiles| + (if b.target == None then 0 else if b.toolchain == None then 1 else 3) ==
             |recs| + m
    ensures FileRecord(world, recs, at, b.rule.moduleFiles[m])
  {
    ModuleEntry(b, m, at);
    assert ReadAt(EntriesOf(b), world, recs, at);
    FileOnRecord(EntriesOf(b), world, recs, at, b.rule.moduleFiles[m]);
  }

  lemma ModuleEntry(b: Build, m: nat, at: nat)
    requires m < |b.rule.moduleFiles|
    requires at + |b.rule.moduleFiles| + (if b.target == None then 0 else if b.toolchain == None then 1 else 3) ==
             |EntriesOf(b)| + m
    ensures at < |EntriesOf(b)| && EntriesOf(b)[at] == Entry(FILE, NUL, b.rule.moduleFiles[m], "", 0)
  {
    var modules, target := FileEntries(b.rule.moduleFiles), ToolchainEntries(b.target, b.toolchain);
    var front := Heading(b.rule) + Flatten(|b.rule.sources|, BlockOf(b));
    EntriesInThree(b);
    Grouped(front, modules, target);
    Inside(EntriesOf(b), front, modules, target, m, at);
  }

  lemma Grouped(a: seq<Entry>, b: seq<Entry>, c: seq<Entry>)
    ensures a + (b + c) == a + b + c
  {
  }

  /**
   In every history: whether a build calls the rule, told by the last build that did and the files and
   values since.
   */
  lemma EveryCall(setup: Setup, states: seq<State>, events: seq<Incremental.Event>, i: nat, j: nat)
    requires History(setup, states, events) && Quiet(events, i, j) && j < |events| && events[i].Built?
             && events[j].Built?
    requires Called(setup, states[i], events[i].build)
    ensures Called(setup, states[j], events[j].build) <==>
              SomethingChanged(setup, states[i], events[i].build, states[j], events[j].build)
  {
    assert StepAt(setup, states, events, i);
    ContentStays(setup, states, events, i, j);
    NextIsCalled(setup, states[i], events[i].build, states[i + 1], states[j], events[j].build);
  }

  lemma {:induction false} ContentStays(setup: Setup, states: seq<State>, events: seq<Incremental.Event>, i: nat,
                                        j: nat)
    requires History(setup, states, events) && Quiet(events, i, j)
    ensures states[j].content == states[i + 1].content
    decreases j
  {
    if i + 1 < j {
      var m := j - 1;
      forall x: nat ensures NoBuildAt(events, i, m, x) { assert NoBuildAt(events, i, j, x); }
      ContentStays(setup, states, events, i, m);
      assert NoBuildAt(events, i, j, m) && StepAt(setup, states, events, m);
      OnlyBuildsWrite(setup, states[m], events[m], states[j]);
    }
  }

  lemma OnlyBuildsWrite(setup: Setup, s: State, e: Incremental.Event, s': State)
    requires Incremental.Step(setup, s, e, s') && !e.Built?
    ensures s'.content == s.content
  {
  }
}
