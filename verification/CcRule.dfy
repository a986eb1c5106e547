/**
 The compile rule of node_cc.c: which sources are compiled again, in which order, and what the next
 build will find recorded.
 */
module CcRule {
  import opened Options
  import opened PathAlgebra
  import opened DepsFormat
  import opened DepsFile
  import opened NodeResolve
  import opened CompileLoop
  import Paths

  /** A set up rule; sources are named by their position. */
  datatype Rule = Rule(
    sources: seq<string>,
    interfaces: set<string>,
    unitFiles: seq<string>,
    vals: Values,
    consumes: seq<string>,
    moduleFiles: seq<string>,
    cacheDir: string,
    parallel: int)
  {
    /** The source as the rule records it, relative to the cache directory; None when the process ends. */
    function Located(k: nat): Option<string> {
      if k >= |sources| then None
      else match Paths.Found(sources[k], cacheDir)
        case None => None
        case Some(segs) => Paths.RelativePath(cacheDir, Render(segs), cacheDir)
    }

    function CachePath(k: nat): string {
      match Located(k) case None => "" case Some(path) => path
    }

    predicate IsInterface(k: nat) {
      k < |sources| && sources[k] in interfaces
    }

    function MaxJobs(): nat {
      if parallel <= 0 then 1 else parallel
    }
  }

  // ---------------------------------------------------------------- selection

  /** Anything but a source makes everything outdated. */
  predicate All(out: seq<Outdated>) {
    out == [] || exists j :: 0 <= j < |out| && out[j].flags != 's'
  }

  predicate Selected(rule: Rule, out: seq<Outdated>, k: nat) {
    k < |rule.sources| && (All(out) || NodeResolve.Names(out, rule.sources[k]))
  }

  ghost predicate Below(s: seq<nat>, i: nat, j: nat) {
    i < j < |s| ==> s[i] < s[j]
  }

  /** In declaration order, without repetition. */
  ghost predicate Increasing(s: seq<nat>) {
    forall i: nat, j: nat :: Below(s, i, j)
  }

  lemma IncreasingDistinct(s: seq<nat>)
    requires Increasing(s)
    ensures NoneTwice(s)
  {
    forall i: nat, j: nat ensures DifferAt(s, i, j) {
      assert Below(s, i, j);
    }
  }

  lemma IncreasingMore(s: seq<nat>, k: nat)
    requires Increasing(s) && forall x | x in s :: x < k
    ensures Increasing(s + [k]) && forall x | x in s + [k] :: x < k + 1
  {
    var t := s + [k];
    forall i: nat, j: nat ensures Below(t, i, j) {
      assert Below(s, i, j);
      if i < j == |s| { assert t[i] == s[i] && s[i] in s; }
    }
  }

  /** `picked` holds the selected sources before `n` of one sort, in order. */
  ghost predicate Picks(picked: seq<nat>, rule: Rule, out: seq<Outdated>, interfaces: bool, n: nat) {
    Increasing(picked) && (forall x | x in picked :: x < n)
    && forall k: nat :: PickedAt(picked, rule, out, interfaces, n, k)
  }

  ghost predicate PickedAt(picked: seq<nat>, rule: Rule, out: seq<Outdated>, interfaces: bool, n: nat, k: nat) {
    k in picked <==> k < n && Selected(rule, out, k) && rule.IsInterface(k) == interfaces
  }

  lemma PickMore(picked: seq<nat>, rule: Rule, out: seq<Outdated>, interfaces: bool, n: nat)
    requires Picks(picked, rule, out, interfaces, n)
    ensures Picks(if Selected(rule, out, n)
            && rule.IsInterface(n) == interfaces then picked + [n] else picked, rule, out, interfaces, n + 1)
  {
    var takes := Selected(rule, out, n) && rule.IsInterface(n) == interfaces;
    var more, m := if takes then picked + [n] else picked, n + 1;
    if takes { IncreasingMore(picked, n); }
    forall k: nat ensures PickedAt(more, rule, out, interfaces, m, k) {
      assert PickedAt(picked, rule, out, interfaces, n, k);
    }
  }

  /** _cc_sources_split */
  method Split(rule: Rule, out: seq<Outdated>) returns (ifaces: seq<nat>, sources: seq<nat>)
    ensures Picks(ifaces, rule, out, true, |rule.sources|) && Picks(sources, rule, out, false, |rule.sources|)
    ensures forall k | k in ifaces :: k < |rule.sources| && rule.sources[k] in rule.interfaces
    ensures forall k | k in sources :: k < |rule.sources| && rule.sources[k] !in rule.interfaces
  {
    var all := |out| == 0;
    var i := 0;
    while !all && i < |out|
      invariant 0 <= i <= |out|
      invariant if all then All(out) else out != [] && forall j | 0 <= j < i :: out[j].flags == 's'
    {
      if out[i].flags != 's' {
        all := true;
      }
      i := i + 1;
    }
    var outdated: set<string> := {};
    if !all {
      outdated := set o | o in out :: o.path;
    }
    ifaces, sources := [], [];
    i := 0;
    while i < |rule.sources|
      invariant 0 <= i <= |rule.sources|
      invariant Picks(ifaces, rule, out, true, i) && Picks(sources, rule, out, false, i)
      invariant forall k | k in ifaces :: k < |rule.sources| && rule.sources[k] in rule.interfaces
      invariant forall k | k in sources :: k < |rule.sources| && rule.sources[k] !in rule.interfaces
    {
      PickMore(ifaces, rule, out, true, i);
      PickMore(sources, rule, out, false, i);
      OutdatedPaths(out, rule.sources[i]);
      if all || rule.sources[i] in outdated {
        if rule.sources[i] in rule.interfaces {
          ifaces := ifaces + [i];
        } else {
          sources := sources + [i];
        }
      }
      i := i + 1;
    }
  }

  lemma OutdatedPaths(out: seq<Outdated>, path: string)
    ensures path in (set o | o in out :: o.path) <==> NodeResolve.Names(out, path)
  {
    if NodeResolve.Names(out, path) {
      var j :| 0 <= j < |out| && out[j].path == path;
      assert out[j] in out;
    }
  }

  // ---------------------------------------------------------------- what is recorded

  function FileEntries(paths: seq<string>): seq<Entry> {
    seq(|paths|, i requires 0 <= i < |paths| => Entry(FILE, NUL, paths[i], "", 0))
  }

  function ValueEntries(vals: Values, i: nat): seq<Entry>
    decreases |vals| - i
  {
    if i >= |vals| then []
    else (if vals[i].Some? then [Entry(NODE_VALUE, NUL, vals[i].value, "", i)] else []) + ValueEntries(vals, i + 1)
  }

  function Flag(rule: Rule, k: nat): char {
    if rule.IsInterface(k) then NUL else 's'
  }

  function HeaderEntries(src: string, flag: char, headers: seq<string>): seq<Entry> {
    if headers == [] then [] else [Entry(ALIAS, flag, src, headers[0], 0)] + HeaderEntries(src, flag, headers[1..])
  }

  lemma {:induction false} HeaderEntriesHold(src: string, flag: char, headers: seq<string>, e: Entry)
    ensures e in HeaderEntries(src, flag, headers) <==> e.alias in headers && e == Entry(ALIAS, flag, src, e.alias, 0)
  {
    if headers != [] {
      HeaderEntriesHold(src, flag, headers[1..], e);
      assert headers == [headers[0]] + headers[1..];
    }
  }

  /** The headers are recorded in the order listed. */
  lemma {:induction false} HeaderEntriesAt(src: string, flag: char, headers: seq<string>, i: nat)
    requires i < |headers|
    ensures |HeaderEntries(src, flag, headers)| == |headers|
    ensures HeaderEntries(src, flag, headers)[i] == Entry('a', flag, src, headers[i], 0)
  {
    if |headers| > 1 { HeaderEntriesAt(src, flag, headers[1..], if i > 0 then i - 1 else 0); }
  }

  /** A source, and unless it failed the headers its compiler has listed. */
  function EntriesFor(src: string, flag: char, failed: bool, headers: seq<string>): seq<Entry> {
    if failed then [Entry(FILE_OUTDATED, flag, src, "", 0)]
    else [Entry(FILE, flag, src, "", 0)] + HeaderEntries(src, flag, headers)
  }

  function SourceEntries(rule: Rule, k: nat, failed: set<string>, headers: nat -> seq<string>): seq<Entry> {
    EntriesFor(rule.CachePath(k), Flag(rule, k), rule.CachePath(k) in failed, headers(k))
  }

  function Flatten(n: nat, f: nat -> seq<Entry>): seq<Entry> {
    if n == 0 then [] else Flatten(n - 1, f) + f(n - 1)
  }

  lemma {:induction false} InFlatten(n: nat, f: nat -> seq<Entry>, e: Entry, k: nat)
    requires k < n && e in f(k)
    ensures e in Flatten(n, f)
  {
    if k < n - 1 {
      InFlatten(n - 1, f, e, k);
    }
  }

  lemma {:induction false} OfFlatten(n: nat, f: nat -> seq<Entry>, e: Entry) returns (k: nat)
    requires e in Flatten(n, f)
    ensures k < n && e in f(k)
  {
    if e in f(n - 1) {
      k := n - 1;
    } else {
      k := OfFlatten(n - 1, f, e);
    }
  }

  /** For each entry of the flattened list, the number of the list it comes from. */
  function Numbers(n: nat, f: nat -> seq<Entry>): seq<nat> {
    if n == 0 then [] else Numbers(n - 1, f) + seq(|f(n - 1)|, _ => n - 1)
  }

  ghost predicate NumberedAt(n: nat, f: nat -> seq<Entry>, i: nat) {
    i < |Flatten(n, f)| && i < |Numbers(n, f)| ==> Numbers(n, f)[i] < n && Flatten(n, f)[i] in f(Numbers(n, f)[i])
  }

  ghost predicate Climbs(s: seq<nat>, x: nat, i: nat) {
    x < i < |s| ==> s[x] <= s[i]
  }

  lemma {:induction false} NumbersFit(n: nat, f: nat -> seq<Entry>)
    ensures |Numbers(n, f)| == |Flatten(n, f)|
    ensures forall i: nat :: NumberedAt(n, f, i)
    ensures forall x: nat, i: nat :: Climbs(Numbers(n, f), x, i)
  {
    if n > 0 {
      var m := n - 1;
      NumbersFit(m, f);
      forall i: nat ensures NumberedAt(n, f, i) { assert NumberedAt(m, f, i); }
      var s, t := Numbers(m, f), Numbers(n, f);
      forall x: nat, i: nat ensures Climbs(t, x, i) { assert Climbs(s, x, i) && NumberedAt(m, f, x); }
    }
  }

  lemma {:induction false} NumbersReach(n: nat, f: nat -> seq<Entry>, k: nat, e: Entry) returns (i: nat)
    requires k < n && e in f(k)
    ensures i < |Flatten(n, f)| && i < |Numbers(n, f)| && Flatten(n, f)[i] == e && Numbers(n, f)[i] == k
  {
    NumbersFit(n - 1, f);
    if k < n - 1 {
      i := NumbersReach(n - 1, f, k, e);
    } else {
      var y :| 0 <= y < |f(k)| && f(k)[y] == e;
      i := |Flatten(n - 1, f)| + y;
    }
  }

  function AllSources(rule: Rule, n: nat, failed: set<string>, headers: nat -> seq<string>): seq<Entry> {
    Flatten(n, (k: nat) => SourceEntries(rule, k, failed, headers))
  }

  function Entries(rule: Rule, failed: set<string>, headers: nat -> seq<string>): seq<Entry> {
    FileEntries(rule.unitFiles) + ValueEntries(rule.vals, 0) + FileEntries(rule.consumes)
    + AllSources(rule, |rule.sources|, failed, headers) + FileEntries(rule.moduleFiles)
  }

  /** What the rule has to record: its files and values, and for each source a failure, or itself and its headers. */
  ghost predicate ToRecord(rule: Rule, failed: set<string>, headers: nat -> seq<string>, e: Entry) {
    || (exists i :: 0 <= i < |rule.unitFiles| && e == Entry('f', NUL, rule.unitFiles[i], "", 0))
    || (exists i :: 0 <= i < |rule.consumes| && e == Entry('f', NUL, rule.consumes[i], "", 0))
    || (exists i :: 0 <= i < |rule.moduleFiles| && e == Entry('f', NUL, rule.moduleFiles[i], "", 0))
    || ValueToRecord(rule.vals, e.serial, e)
    || (exists k: nat :: k < |rule.sources| && SourceToRecord(rule, failed, headers(k), k, e))
  }

  ghost predicate SourceToRecord(rule: Rule, failed: set<string>, headers: seq<string>, k: nat, e: Entry)
    requires k < |rule.sources|
  {
    var src, flag := rule.CachePath(k), if rule.sources[k] in rule.interfaces then NUL else 's';
    if src in failed then e == Entry('o', flag, src, "", 0)
    else e == Entry('f', flag, src, "", 0) || (e.alias in headers && e == Entry('a', flag, src, e.alias, 0))
  }

  ghost predicate ValueToRecord(vals: Values, i: int, e: Entry) {
    0 <= i < |vals| && vals[i].Some? && e == Entry('v', NUL, vals[i].value, "", i)
  }

  lemma {:induction false} ValueEntriesAre(vals: Values, n: nat, e: Entry)
    ensures e in ValueEntries(vals, n) <==> n <= e.serial && ValueToRecord(vals, e.serial, e)
    decreases |vals| - n
  {
    if n < |vals| {
      ValueEntriesAre(vals, n + 1, e);
      var here := if vals[n].Some? then [Entry(NODE_VALUE, NUL, vals[n].value, "", n)] else [];
      assert ValueEntries(vals, n) == here + ValueEntries(vals, n + 1);
      assert e in here <==> e.serial == n && ValueToRecord(vals, n, e);
    }
  }

  lemma FileEntriesAre(paths: seq<string>, e: Entry)
    ensures e in FileEntries(paths) <==> exists i :: 0 <= i < |paths| && e == Entry('f', NUL, paths[i], "", 0)
  {
    if i :| 0 <= i < |paths| && e == Entry('f', NUL, paths[i], "", 0) { assert FileEntries(paths)[i] == e; }
  }

  lemma SourceEntriesAre(rule: Rule, k: nat, failed: set<string>, headers: nat -> seq<string>, e: Entry)
    requires k < |rule.sources|
    ensures e in SourceEntries(rule, k, failed, headers) <==> SourceToRecord(rule, failed, headers(k), k, e)
  {
    HeaderEntriesHold(rule.CachePath(k), Flag(rule, k), headers(k), e);
  }

  /** Exactly that is recorded. */
  lemma EntriesAre(rule: Rule, failed: set<string>, headers: nat -> seq<string>, e: Entry)
    ensures e in Entries(rule, failed, headers) <==> ToRecord(rule, failed, headers, e)
  {
    var n, f := |rule.sources|, (k: nat) => SourceEntries(rule, k, failed, headers);
    FileEntriesAre(rule.unitFiles, e);
    FileEntriesAre(rule.consumes, e);
    FileEntriesAre(rule.moduleFiles, e);
    ValueEntriesAre(rule.vals, 0, e);
    if e in Flatten(n, f) {
      var k := OfFlatten(n, f, e);
      SourceEntriesAre(rule, k, failed, headers, e);
    }
    if k: nat :| k < n && SourceToRecord(rule, failed, headers(k), k, e) {
      SourceEntriesAre(rule, k, failed, headers, e);
      InFlatten(n, f, e, k);
    }
  }

  ghost predicate StampedAt(es: seq<Entry>, world: World, i: nat) {
    i < |es| ==> StampOf(es[i], world).Some?
  }

  ghost predicate AllStamped(es: seq<Entry>, world: World) {
    forall i: nat :: StampedAt(es, world, i)
  }

  lemma StampedParts(es: seq<Entry>, fs: seq<Entry>, world: World)
    requires AllStamped(es + fs, world)
    ensures AllStamped(es, world) && AllStamped(fs, world)
  {
    var both, n := es + fs, |es|;
    forall i: nat ensures StampedAt(es, world, i) { assert StampedAt(both, world, i); }
    forall i: nat ensures StampedAt(fs, world, i) {
      var j := n + i;
      assert StampedAt(both, world, j);
    }
  }

  lemma StampedMore(es: seq<Entry>, world: World, e: Entry)
    requires AllStamped(es, world) && StampOf(e, world).Some?
    ensures AllStamped(es + [e], world)
  {
    var more := es + [e];
    forall i: nat ensures StampedAt(more, world, i) { assert StampedAt(es, world, i); }
  }

  /** The file holds the records of `es`. */
  ghost predicate Recorded(file: string, es: seq<Entry>, world: World) {
    AllStamped(es, world) && file == Content(Stamps(es, world))
  }

  lemma RecordedMore(file: string, es: seq<Entry>, world: World, e: Entry)
    requires Recorded(file, es, world) && StampOf(e, world).Some?
    ensures Recorded(file + Line(StampOf(e, world).value), es + [e], world)
  {
    StampedMore(es, world, e);
    ContentMore(Stamps(es, world), StampOf(e, world).value);
    assert Stamps(es + [e], world) == Stamps(es, world) + [StampOf(e, world).value];
  }

  /** deps_add, deps_add_alias; false when the process ends. */
  method Emit(deps: Deps, e: Entry, world: World, ghost done: seq<Entry>) returns (ok: bool)
    requires deps.Valid() && Recorded(deps.file, done, world)
    modifies deps`file, deps`numRegistered
    ensures deps.Valid() && (ok ==> Recorded(deps.file, done + [e], world)) && (ok <==> StampOf(e, world).Some?)
  {
    if StampOf(e, world).Some? { RecordedMore(deps.file, done, world, e); }
    ok := deps.Add(e.kind, e.flags, e.resource, e.alias, e.serial, world);
  }

  lemma OneMoreEntry(done: seq<Entry>, es: seq<Entry>, i: nat)
    requires i < |es|
    ensures done + es[..i + 1] == (done + es[..i]) + [es[i]]
  {
  }

  method EmitAll(deps: Deps, es: seq<Entry>, world: World, ghost done: seq<Entry>) returns (ok: bool)
    requires deps.Valid() && Recorded(deps.file, done, world)
    modifies deps`file, deps`numRegistered
    ensures deps.Valid() && (ok ==> Recorded(deps.file, done + es, world)) && (AllStamped(es, world) ==> ok)
  {
    var i := 0;
    assert done + es[..0] == done;
    while i < |es|
      modifies deps`file, deps`numRegistered
      invariant 0 <= i <= |es| && deps.Valid() && Recorded(deps.file, done + es[..i], world)
    {
      OneMoreEntry(done, es, i);
      assert AllStamped(es, world) ==> StampedAt(es, world, i);
      ok := Emit(deps, es[i], world, done + es[..i]);
      if !ok {
        return;
      }
      i := i + 1;
    }
    assert es[..i] == es;
    ok := true;
  }

  // ---------------------------------------------------------------- the whole rule

  ghost predicate BadInterface(rule: Rule, out: seq<Outdated>, cc: Compiler) {
    exists i: nat :: rule.IsInterface(i) && Selected(rule, out, i) && Bad(cc, i)
  }

  /** Importers are attempted only when no selected interface fails. */
  ghost predicate Attempted(rule: Rule, out: seq<Outdated>, cc: Compiler, k: nat) {
    Selected(rule, out, k) && (rule.IsInterface(k) || !BadInterface(rule, out, cc))
  }

  ghost predicate Broken(rule: Rule, out: seq<Outdated>, cc: Compiler, k: nat) {
    Attempted(rule, out, cc, k) && Bad(cc, k)
  }

  /** What the two passes of the pool did. */
  ghost predicate Passes(rule: Rule, out: seq<Outdated>, cc: Compiler, ifaces: seq<nat>, sources: seq<nat>, first: Log,
                         second: Log) {
    && Picks(ifaces, rule, out, true, |rule.sources|) && Picks(sources, rule, out, false, |rule.sources|)
    && Complete(first, ifaces, 1) && Truthful(first, cc)
    && if BadInterface(rule, out, cc) then second == []
       else Complete(second, sources, rule.MaxJobs()) && Truthful(second, cc)
  }

  /** The failure map holds the paths of the broken sources. */
  ghost predicate Marks(fmap: set<string>, rule: Rule, out: seq<Outdated>, cc: Compiler) {
    forall p: string :: MarkedPath(fmap, rule, out, cc, p)
  }

  ghost predicate MarkedPath(fmap: set<string>, rule: Rule, out: seq<Outdated>, cc: Compiler, p: string) {
    p in fmap <==> exists k: nat :: Broken(rule, out, cc, k) && p == rule.CachePath(k)
  }

  ghost predicate Serves(jobs: Jobs, rule: Rule) {
    forall k: nat :: jobs.path(k) == rule.CachePath(k)
  }

  /** Compiles the picked sources: interfaces one at a time, then the others unless one failed. */
  method CompilePicked(rule: Rule, out: seq<Outdated>, jobs: Jobs, ifaces: seq<nat>, sources: seq<nat>)
    returns (ghost first: Log, ghost second: Log)
    requires jobs.numFailed == 0 && jobs.fmap == {} && Serves(jobs, rule)
    requires Picks(ifaces, rule, out, true, |rule.sources|) && Picks(sources, rule, out, false, |rule.sources|)
    modifies jobs
    ensures Passes(rule, out, jobs.cc, ifaces, sources, first, second) && Marks(jobs.fmap, rule, out, jobs.cc)
    ensures jobs.numFailed == 0 <==> forall k: nat :: !Broken(rule, out, jobs.cc, k)
    ensures forall n | 0 <= n <= |first| :: |Running(first[..n])| <= 1
    ensures forall n | 0 <= n <= |second| ::
              |Running(second[..n])| <= if rule.parallel >= 1 then rule.parallel else 1
  {
    IncreasingDistinct(ifaces);
    IncreasingDistinct(sources);
    first := jobs.Compile(ifaces, 1);
    CountZero(rule, out, jobs.cc, ifaces);
    second := [];
    if jobs.numFailed == 0 {
      second := jobs.Compile(sources, rule.MaxJobs());
    }
    BrokenOnes(rule, out, jobs.cc, ifaces, sources);
    BrokenPaths(jobs.fmap, rule, out, jobs.cc, jobs.path, ifaces, sources);
    forall n: nat ensures n <= |first| ==> |Running(first[..n])| <= 1
                  ensures n <= |second| ==>
                            |Running(second[..n])| <= if rule.parallel >= 1 then rule.parallel else 1
    {
      PoolBound(rule, out, jobs.cc, ifaces, sources, first, second, n);
    }
  }

  lemma CountZero(rule: Rule, out: seq<Outdated>, cc: Compiler, ifaces: seq<nat>)
    requires Picks(ifaces, rule, out, true, |rule.sources|)
    ensures |BadOnes(ifaces, cc)| == 0 <==> !BadInterface(rule, out, cc)
  {
    var bad := BadOnes(ifaces, cc);
    if i: nat :| rule.IsInterface(i) && Selected(rule, out, i) && Bad(cc, i) {
      assert PickedAt(ifaces, rule, out, true, |rule.sources|, i);
      assert i in bad;
    }
    if bad != {} {
      var k :| k in bad;
      assert PickedAt(ifaces, rule, out, true, |rule.sources|, k);
    }
  }

  /** The broken sources are those both passes failed on. */
  lemma BrokenIn(rule: Rule, out: seq<Outdated>, cc: Compiler, ifaces: seq<nat>, sources: seq<nat>, k: nat)
    requires Picks(ifaces, rule, out, true, |rule.sources|) && Picks(sources, rule, out, false, |rule.sources|)
    ensures Broken(rule, out, cc, k)
            <==> k in BadOnes(ifaces, cc) || (!BadInterface(rule, out, cc) && k in BadOnes(sources, cc))
  {
    assert PickedAt(ifaces, rule, out, true, |rule.sources|, k);
    assert PickedAt(sources, rule, out, false, |rule.sources|, k);
  }

  lemma BrokenOnes(rule: Rule, out: seq<Outdated>, cc: Compiler, ifaces: seq<nat>, sources: seq<nat>)
    requires Picks(ifaces, rule, out, true, |rule.sources|) && Picks(sources, rule, out, false, |rule.sources|)
    ensures (forall k: nat :: !Broken(rule, out, cc, k))
            <==> !BadInterface(rule, out, cc) && |BadOnes(sources, cc)| == 0
  {
    CountZero(rule, out, cc, ifaces);
    if !BadInterface(rule, out, cc) && |BadOnes(sources, cc)| == 0 {
      forall k: nat ensures !Broken(rule, out, cc, k) { BrokenIn(rule, out, cc, ifaces, sources, k); }
    } else if i: nat :| rule.IsInterface(i) && Selected(rule, out, i) && Bad(cc, i) {
      assert Broken(rule, out, cc, i);
    } else {
      var k :| k in BadOnes(sources, cc);
      BrokenIn(rule, out, cc, ifaces, sources, k);
    }
  }

  lemma BrokenPaths(fmap: set<string>, rule: Rule, out: seq<Outdated>, cc: Compiler, path: nat -> string,
                    ifaces: seq<nat>, sources: seq<nat>)
    requires Picks(ifaces, rule, out, true, |rule.sources|) && Picks(sources, rule, out, false, |rule.sources|)
    requires forall k: nat :: path(k) == rule.CachePath(k)
    requires fmap == BadPaths(ifaces, cc, path)
                     + if BadInterface(rule, out, cc) then {} else BadPaths(sources, cc, path)
    ensures Marks(fmap, rule, out, cc)
  {
    forall p: string ensures MarkedPath(fmap, rule, out, cc, p) {
      if k: nat :| Broken(rule, out, cc, k) && p == rule.CachePath(k) {
        BrokenIn(rule, out, cc, ifaces, sources, k);
        assert path(k) == p;
      }
      if p in fmap {
        if k: nat :| k in BadOnes(ifaces, cc) && path(k) == p {
          BrokenIn(rule, out, cc, ifaces, sources, k);
        } else {
          var k: nat :| k in BadOnes(sources, cc) && path(k) == p;
          BrokenIn(rule, out, cc, ifaces, sources, k);
        }
      }
    }
  }

  /** Source `k`, if it is one of the first `n`, is located; after the `n`-th the records follow those of `done`. */
  ghost predicate WrittenAt(rule: Rule, n: nat, file: string, fmap: set<string>, headers: nat -> seq<string>,
                            world: World, done: seq<Entry>, k: nat) {
    && (k < n ==> rule.Located(k).Some?)
    && (k == n ==> Recorded(file, done + AllSources(rule, n, fmap, headers), world))
  }

  /** The records of the first `n` sources follow those of `done`. */
  ghost predicate Written(rule: Rule, n: nat, file: string, fmap: set<string>, headers: nat -> seq<string>,
                          world: World, done: seq<Entry>) {
    forall k: nat :: WrittenAt(rule, n, file, fmap, headers, world, done, k)
  }

  /** The records of the sources, after compilation. */
  method WriteSources(rule: Rule, deps: Deps, fmap: set<string>, headers: nat -> seq<string>, world: World,
                      ghost done: seq<Entry>) returns (ok: bool)
    requires deps.Valid() && Written(rule, 0, deps.file, fmap, headers, world, done)
    modifies deps`file, deps`numRegistered
    ensures deps.Valid() && (ok ==> Written(rule, |rule.sources|, deps.file, fmap, headers, world, done))
    ensures AllLocated(rule) && AllStamped(AllSources(rule, |rule.sources|, fmap, headers), world) ==> ok
  {
    var i := 0;
    while i < |rule.sources|
      modifies deps`file, deps`numRegistered
      invariant WrittenSoFar(rule, i, deps, fmap, headers, world, done)
      decreases |rule.sources| - i
    {
      ok := WriteNext(rule, i, deps, fmap, headers, world, done);
      if !ok {
        return;
      }
      i := i + 1;
    }
    ok := true;
  }

  ghost predicate WrittenSoFar(rule: Rule, i: int, deps: Deps, fmap: set<string>, headers: nat -> seq<string>,
                               world: World, done: seq<Entry>)
    reads deps, deps.buf
  {
    0 <= i <= |rule.sources| && deps.Valid() && Written(rule, i, deps.file, fmap, headers, world, done)
  }

  /** When all sources can be recorded, so can each. */
  lemma StampedSource(rule: Rule, i: nat, fmap: set<string>, headers: nat -> seq<string>, world: World)
    requires i < |rule.sources|
    ensures AllStamped(AllSources(rule, |rule.sources|, fmap, headers), world) ==>
              AllStamped(SourceEntries(rule, i, fmap, headers), world)
    ensures AllLocated(rule) ==> rule.Located(i).Some?
  {
    assert AllLocated(rule) ==> LocatedAt(rule, i);
    if AllStamped(AllSources(rule, |rule.sources|, fmap, headers), world) {
      StampedBlock(|rule.sources|, (k: nat) => SourceEntries(rule, k, fmap, headers), i, world);
    }
  }

  lemma {:induction false} StampedBlock(n: nat, f: nat -> seq<Entry>, k: nat, world: World)
    requires AllStamped(Flatten(n, f), world) && k < n
    ensures AllStamped(f(k), world)
  {
    StampedParts(Flatten(n - 1, f), f(n - 1), world);
    if k < n - 1 { StampedBlock(n - 1, f, k, world); }
  }

  lemma WrittenNone(rule: Rule, file: string, fmap: set<string>, headers: nat -> seq<string>, world: World,
                    done: seq<Entry>)
    requires Recorded(file, done, world)
    ensures Written(rule, 0, file, fmap, headers, world, done)
  {
    assert done + [] == done;
    forall k: nat ensures WrittenAt(rule, 0, file, fmap, headers, world, done, k) {}
  }

  lemma WrittenMore(rule: Rule, n: nat, file: string, file': string, fmap: set<string>, headers: nat -> seq<string>,
                    world: World, done: seq<Entry>)
    requires Written(rule, n, file, fmap, headers, world, done) && rule.Located(n).Some?
    requires Recorded(file', done + AllSources(rule, n, fmap, headers) + SourceEntries(rule, n, fmap, headers), world)
    ensures Written(rule, n + 1, file', fmap, headers, world, done)
  {
    var m := n + 1;
    MoreSources(rule, n, fmap, headers, done);
    forall k: nat ensures WrittenAt(rule, m, file', fmap, headers, world, done, k) {
      assert WrittenAt(rule, n, file, fmap, headers, world, done, k);
    }
  }

  method WriteNext(rule: Rule, i: nat, deps: Deps, fmap: set<string>, headers: nat -> seq<string>, world: World,
                   ghost done: seq<Entry>) returns (ok: bool)
    requires deps.Valid() && i < |rule.sources| && Written(rule, i, deps.file, fmap, headers, world, done)
    modifies deps`file, deps`numRegistered
    ensures deps.Valid() && (ok ==> Written(rule, i + 1, deps.file, fmap, headers, world, done))
    ensures AllLocated(rule) && AllStamped(AllSources(rule, |rule.sources|, fmap, headers), world) ==> ok
  {
    ghost var file := deps.file;
    StampedSource(rule, i, fmap, headers, world);
    assert WrittenAt(rule, i, file, fmap, headers, world, done, i);
    ok := WriteSource(rule, i, deps, fmap, headers, world, done + AllSources(rule, i, fmap, headers));
    if ok { WrittenMore(rule, i, file, deps.file, fmap, headers, world, done); }
  }

  /** Every source has a path it is recorded under. */
  ghost predicate AllLocated(rule: Rule) {
    forall k: nat :: LocatedAt(rule, k)
  }

  ghost predicate LocatedAt(rule: Rule, k: nat) {
    k < |rule.sources| ==> rule.Located(k).Some?
  }

  lemma WrittenAll(rule: Rule, file: string, fmap: set<string>, headers: nat -> seq<string>, world: World,
                   done: seq<Entry>)
    requires Written(rule, |rule.sources|, file, fmap, headers, world, done)
    ensures AllLocated(rule) && Recorded(file, done + AllSources(rule, |rule.sources|, fmap, headers), world)
  {
    var n := |rule.sources|;
    assert WrittenAt(rule, n, file, fmap, headers, world, done, n);
    forall k: nat ensures LocatedAt(rule, k) { assert WrittenAt(rule, n, file, fmap, headers, world, done, k); }
  }

  lemma MoreSources(rule: Rule, i: nat, fmap: set<string>, headers: nat -> seq<string>, done: seq<Entry>)
    ensures done + AllSources(rule, i + 1, fmap, headers) ==
              done + AllSources(rule, i, fmap, headers) + SourceEntries(rule, i, fmap, headers)
  {
  }

  method WriteSource(rule: Rule, i: nat, deps: Deps, fmap: set<string>, headers: nat -> seq<string>, world: World,
                     ghost done: seq<Entry>)
    returns (ok: bool)
    requires deps.Valid() && Recorded(deps.file, done, world) && i < |rule.sources|
    modifies deps`file, deps`numRegistered
    ensures deps.Valid() && (ok ==> Recorded(deps.file, done + SourceEntries(rule, i, fmap, headers), world))
    ensures ok ==> rule.Located(i).Some?
    ensures rule.Located(i).Some? && AllStamped(SourceEntries(rule, i, fmap, headers), world) ==> ok
  {
    var src := Locate(rule, i);
    if src == None {
      return false;
    }
    ok := WriteOne(src.value, Flag(rule, i), src.value in fmap, headers(i), deps, world, done);
  }

  /** path_normalize_cwd, then path_relativize_cwd */
  method Locate(rule: Rule, i: nat) returns (src: Option<string>)
    requires i < |rule.sources|
    ensures src == rule.Located(i)
  {
    var path := Paths.NormalizeCwd(rule.sources[i], rule.cacheDir);
    if path == None {
      return None;
    }
    src := Paths.RelativizeCwd(rule.cacheDir, path.value, rule.cacheDir);
  }

  method WriteOne(src: string, flag: char, failed: bool, headers: seq<string>, deps: Deps, world: World,
                  ghost done: seq<Entry>)
    returns (ok: bool)
    requires deps.Valid() && Recorded(deps.file, done, world)
    modifies deps`file, deps`numRegistered
    ensures deps.Valid() && (ok ==> Recorded(deps.file, done + EntriesFor(src, flag, failed, headers), world))
    ensures AllStamped(EntriesFor(src, flag, failed, headers), world) ==> ok
  {
    var e := Entry(if failed then FILE_OUTDATED else FILE, flag, src, "", 0);
    assert failed ==> done + EntriesFor(src, flag, failed, headers) == done + [e];
    assert !failed ==> done + EntriesFor(src, flag, failed, headers) == done + [e] + HeaderEntries(src, flag, headers);
    if AllStamped(EntriesFor(src, flag, failed, headers), world) {
      assert StampedAt(EntriesFor(src, flag, failed, headers), world, 0);
      if !failed { StampedParts([e], HeaderEntries(src, flag, headers), world); }
    }
    ok := Emit(deps, e, world, done);
    if ok && !failed {
      ok := EmitAll(deps, HeaderEntries(src, flag, headers), world, done + [e]);
    }
  }

  /** _cc_on_resolve; not ok when the process ends because a path is too long. */
  method OnResolve(rule: Rule, out: seq<Outdated>, jobs: Jobs, headers: nat -> seq<string>, world: World)
    returns (ok: bool, content: string, ghost ifaces: seq<nat>, ghost sources: seq<nat>,
             ghost first: Log, ghost second: Log)
    requires jobs.numFailed == 0 && jobs.fmap == {} && Serves(jobs, rule)
    modifies jobs
    ensures ok ==> Passes(rule, out, jobs.cc, ifaces, sources, first, second) && Marks(jobs.fmap, rule, out, jobs.cc)
    ensures ok ==> (jobs.numFailed == 0 <==> forall k: nat :: !Broken(rule, out, jobs.cc, k))
    ensures ok ==> Recorded(content, Entries(rule, jobs.fmap, headers), world)
    ensures ok ==> forall e :: e in Entries(rule, jobs.fmap, headers) <==> ToRecord(rule, jobs.fmap, headers, e)
    ensures ok ==> AllLocated(rule)
    ensures forall fmap: set<string> ::
              Marks(fmap, rule, out, jobs.cc) && AllLocated(rule) && AllStamped(Entries(rule, fmap, headers), world) ==>
                ok
  {
    content, ifaces, sources, first, second := "", [], [], [], [];
    var ifs, srs := Split(rule, out);
    ifaces, sources := ifs, srs;
    forall fmap: set<string> | AllStamped(Entries(rule, fmap, headers), world)
      ensures AllStamped(FileEntries(rule.unitFiles) + ValueEntries(rule.vals, 0) + FileEntries(rule.consumes), world)
      ensures AllStamped(AllSources(rule, |rule.sources|, fmap, headers), world)
      ensures AllStamped(FileEntries(rule.moduleFiles), world)
    {
      EntriesStamped(rule, fmap, headers, world);
    }
    var deps := new Deps("");
    ghost var front := FileEntries(rule.unitFiles) + ValueEntries(rule.vals, 0) + FileEntries(rule.consumes);
    ok := WriteFront(rule, deps, world);
    if !ok {
      return;
    }
    first, second := CompilePicked(rule, out, jobs, ifs, srs);
    forall fmap: set<string> | Marks(fmap, rule, out, jobs.cc) ensures fmap == jobs.fmap {
      MarksOnlyOne(fmap, jobs.fmap, rule, out, jobs.cc);
    }
    WrittenNone(rule, deps.file, jobs.fmap, headers, world, front);
    ok := WriteSources(rule, deps, jobs.fmap, headers, world, front);
    if !ok {
      return;
    }
    WrittenAll(rule, deps.file, jobs.fmap, headers, world, front);
    ghost var done := front + AllSources(rule, |rule.sources|, jobs.fmap, headers);
    ok := EmitAll(deps, FileEntries(rule.moduleFiles), world, done);
    content := deps.file;
    forall e ensures e in Entries(rule, jobs.fmap, headers) <==> ToRecord(rule, jobs.fmap, headers, e) {
      EntriesAre(rule, jobs.fmap, headers, e);
    }
  }

  lemma EntriesStamped(rule: Rule, fmap: set<string>, headers: nat -> seq<string>, world: World)
    requires AllStamped(Entries(rule, fmap, headers), world)
    ensures AllStamped(FileEntries(rule.unitFiles) + ValueEntries(rule.vals, 0) + FileEntries(rule.consumes), world)
    ensures AllStamped(AllSources(rule, |rule.sources|, fmap, headers), world)
    ensures AllStamped(FileEntries(rule.moduleFiles), world)
  {
    var front := FileEntries(rule.unitFiles) + ValueEntries(rule.vals, 0) + FileEntries(rule.consumes);
    var sources := AllSources(rule, |rule.sources|, fmap, headers);
    StampedParts(front + sources, FileEntries(rule.moduleFiles), world);
    StampedParts(front, sources, world);
  }

  /** The failure map holds what it must, and nothing else. */
  lemma MarksOnlyOne(fmap: set<string>, fmap': set<string>, rule: Rule, out: seq<Outdated>, cc: Compiler)
    requires Marks(fmap, rule, out, cc) && Marks(fmap', rule, out, cc)
    ensures fmap == fmap'
  {
    forall p: string ensures p in fmap <==> p in fmap' {
      assert MarkedPath(fmap, rule, out, cc, p) && MarkedPath(fmap', rule, out, cc, p);
    }
  }

  lemma MarksExist(rule: Rule, out: seq<Outdated>, cc: Compiler) returns (fmap: set<string>)
    ensures Marks(fmap, rule, out, cc)
  {
    fmap := set k | 0 <= k < |rule.sources| && Broken(rule, out, cc, k) :: rule.CachePath(k);
    forall p: string ensures MarkedPath(fmap, rule, out, cc, p) {}
  }

  method WriteFront(rule: Rule, deps: Deps, world: World) returns (ok: bool)
    requires deps.Valid() && deps.file == ""
    modifies deps`file, deps`numRegistered
    ensures deps.Valid()
    ensures ok ==>
              Recorded(deps.file, FileEntries(rule.unitFiles) + ValueEntries(rule.vals, 0) + FileEntries(rule.consumes),
                       world)
    ensures AllStamped(FileEntries(rule.unitFiles) + ValueEntries(rule.vals, 0) + FileEntries(rule.consumes), world) ==>
              ok
  {
    if AllStamped(FileEntries(rule.unitFiles) + ValueEntries(rule.vals, 0) + FileEntries(rule.consumes), world) {
      StampedParts(FileEntries(rule.unitFiles) + ValueEntries(rule.vals, 0), FileEntries(rule.consumes), world);
      StampedParts(FileEntries(rule.unitFiles), ValueEntries(rule.vals, 0), world);
    }
    assert Recorded("", [], world) by {
      forall i: nat ensures StampedAt([], world, i) {}
      assert Stamps([], world) == [];
    }
    assert [] + FileEntries(rule.unitFiles) == FileEntries(rule.unitFiles);
    ok := EmitAll(deps, FileEntries(rule.unitFiles), world, []);
    if !ok {
      return;
    }
    ok := EmitAll(deps, ValueEntries(rule.vals, 0), world, FileEntries(rule.unitFiles));
    if !ok {
      return;
    }
    ok := EmitAll(deps, FileEntries(rule.consumes), world, FileEntries(rule.unitFiles) + ValueEntries(rule.vals, 0));
  }

  /** node_resolve_toolchain_deps: the target's records go behind those of the rule. */
  method AddToolchain(content: string, target: Option<string>, file: Option<string>, world: World,
                      ghost done: seq<Entry>)
    returns (ok: bool, text: string)
    requires Recorded(content, done, world)
    ensures ok ==> Recorded(text, done + ToolchainEntries(target, file), world)
    ensures AllStamped(ToolchainEntries(target, file), world) ==> ok
  {
    if target == None {
      assert done + [] == done;
      return true, content;
    }
    var deps := new Deps(content);
    ok := EmitAll(deps, ToolchainEntries(target, file), world, done);
    text := deps.file;
  }

  // ---------------------------------------------------------------- how many compilers run

  /**
   Interfaces are compiled one at a time. Of the other sources at most as many are compiled at once as the rule
   allows, and at most one if it allows none; and the rule waits only when that many run or all are begun.
   */
  lemma PoolBound(rule: Rule, out: seq<Outdated>, cc: Compiler, ifaces: seq<nat>, sources: seq<nat>, first: Log,
                  second: Log, n: nat)
    requires Passes(rule, out, cc, ifaces, sources, first, second)
    ensures n <= |first| ==> |Running(first[..n])| <= 1
    ensures n <= |second| && rule.parallel >= 1 ==> |Running(second[..n])| <= rule.parallel
    ensures n <= |second| && rule.parallel <= 0 ==> |Running(second[..n])| <= 1
    ensures n < |second| && second[n] == Wait ==>
              || Begun(second[..n]) == sources
              || |Running(second[..n])| == if rule.parallel >= 1 then rule.parallel else 1
  {
    if n <= |first| {
      EveryMoment(first, ifaces, 1, n);
      Bounded(first[..n], ifaces, 1);
    }
    if BadInterface(rule, out, cc) {
      assert second == [];
      assert n <= |second| ==> second[..n] == [];
    } else if n <= |second| {
      EveryMoment(second, sources, rule.MaxJobs(), n);
      Bounded(second[..n], sources, rule.MaxJobs());
      if n < |second| && second[n] == Wait { NoIdleWait(second, sources, rule.MaxJobs(), n); }
    }
  }

  // ---------------------------------------------------------------- modules come first

  lemma {:induction false} EndedWith(log: Log, cc: Compiler, k: nat)
    requires Truthful(log, cc) && Ends(log, k) > 0
    ensures Finish(k, cc.exits(k)) in log
  {
    assert RealAt(log, |log| - 1, cc);
    if !(Last(log).Finish? && Last(log).src == k) {
      var less := Before(log);
      forall i: nat ensures RealAt(less, i, cc) { assert RealAt(log, i, cc); }
      EndedWith(less, cc, k);
    }
  }

  lemma {:induction false} StartedIn(log: Log, k: nat)
    ensures Start(k) in log || SpawnFail(k) in log ==> Starts(log, k) + SpawnFails(log, k) > 0
  {
    if log != [] {
      StartedIn(Before(log), k);
      assert log == Before(log) + [Last(log)];
    }
  }

  lemma {:induction false} NoSpawnFails(log: Log, cc: Compiler, k: nat)
    requires Truthful(log, cc) && cc.spawns(k)
    ensures SpawnFails(log, k) == 0
  {
    if log != [] {
      assert RealAt(log, |log| - 1, cc);
      var less := Before(log);
      forall i: nat ensures RealAt(less, i, cc) { assert RealAt(log, i, cc); }
      NoSpawnFails(less, cc, k);
    }
  }

  /** Before any importer is attempted, every selected interface has finished successfully. */
  lemma ImportersWait(rule: Rule, out: seq<Outdated>, cc: Compiler, ifaces: seq<nat>, sources: seq<nat>, first: Log,
                      second: Log, k: nat, i: nat)
    requires Passes(rule, out, cc, ifaces, sources, first, second)
    requires Start(k) in first + second && k < |rule.sources| && rule.sources[k] !in rule.interfaces
    requires i < |rule.sources| && rule.sources[i] in rule.interfaces && Selected(rule, out, i)
    ensures Start(k) !in first && Finish(i, 0) in first
    ensures Start(i) !in second
  {
    IncreasingDistinct(ifaces);
    IncreasingDistinct(sources);
    OnceEach(first, ifaces, 1, k);
    StartedIn(first, k);
    assert PickedAt(ifaces, rule, out, true, |rule.sources|, k);
    assert Start(k) !in first;
    assert second != [];
    assert PickedAt(ifaces, rule, out, true, |rule.sources|, i);
    assert PickedAt(sources, rule, out, false, |rule.sources|, i);
    assert !Bad(cc, i);
    OnceEach(first, ifaces, 1, i);
    NoSpawnFails(first, cc, i);
    EndedWith(first, cc, i);
    OnceEach(second, sources, rule.MaxJobs(), i);
    StartedIn(second, i);
  }
}
