/**
 Edits and builds in turn: whether each build compiles what the edits have made stale.
 Sources that name the same file share one object and one header list. An object is stale when it does
 not come from a successful compilation of the present file and headers.
 */
module Incremental {
  import opened Options
  import opened PathAlgebra
  import opened DepsFormat
  import opened DepsFile
  import opened NodeResolve
  import opened CompileLoop
  import opened CcRule
  import Paths

  /** What is fixed over a history: the declared sources and the cache directory. */
  datatype Setup = Setup(sources: seq<string>, cacheDir: string)

  /**
   Files and the dependency file of the rule; for each source file the compiler generated list of headers
   and, if its object is there, the file times it was built from.
   */
  datatype State = State(
    files: map<string, int>,
    clock: int,
    content: Option<string>,
    lists: string -> seq<string>,
    built: map<string, map<string, int>>)

  /** One build: the rule as set up this time, its surroundings and the compiler's behaviour. */
  datatype Build = Build(
    rule: Rule,
    env: map<string, string>,
    sysEnv: map<string, string>,
    cc: Compiler,
    headers: string -> seq<string>,
    target: Option<string>,
    toolchain: Option<string>,
    fmap: set<string>)

  function PlaceOf(sources: seq<string>, cacheDir: string, k: nat): string {
    if k < |sources| then Normal(sources[k], cacheDir) else ""
  }

  /** The file of a source. */
  function Place(setup: Setup, k: nat): string {
    PlaceOf(setup.sources, setup.cacheDir, k)
  }

  predicate IsCanonical(setup: Setup, k: nat) {
    k < |setup.sources| && setup.sources[k] == Place(setup, k)
  }

  /** The rule compiles the declared sources, and their paths fit the buffers. */
  ghost predicate Sane(setup: Setup, rule: Rule) {
    && rule.sources == setup.sources && rule.cacheDir == setup.cacheDir
    && Paths.Fits(setup.cacheDir, setup.cacheDir) && Normal(setup.cacheDir, setup.cacheDir) == setup.cacheDir
    && (forall k: nat :: FitsAt(rule, k))
  }

  ghost predicate FitsAt(rule: Rule, k: nat) {
    k < |rule.sources| ==>
      && Paths.Fits(rule.sources[k], rule.cacheDir) && Paths.Fits(Normal(rule.sources[k], rule.cacheDir), rule.cacheDir)
      && Paths.Fits(rule.CachePath(k), rule.cacheDir)
  }

  // ---------------------------------------------------------------- steps

  function WorldOf(setup: Setup, s: State, b: Build): World {
    World(s.files, b.env, b.sysEnv, setup.cacheDir)
  }

  function Records(s: State): seq<Record> {
    Old(false, s.content)
  }

  function Out(setup: Setup, s: State, b: Build): seq<Outdated> {
    Reported(Records(s), None, WorldOf(setup, s, b), b.rule.vals)
  }

  /** The decision of node_resolve. */
  predicate Called(setup: Setup, s: State, b: Build) {
    Records(s) == [] || AnyStale(Records(s), WorldOf(setup, s, b), b.rule.vals)
    || (b.target.Some? && !TargetSeen(Records(s)))
  }

  predicate Chosen(setup: Setup, s: State, b: Build, k: nat) {
    Called(setup, s, b) && Selected(b.rule, Out(setup, s, b), k)
  }

  /** The files the object of a source file depends on, and their times. */
  function Watched(setup: Setup, lists: string -> seq<string>, place: string): set<string> {
    {place} + set h | h in lists(place) && Canonical(h, setup.cacheDir).Some? :: Canonical(h, setup.cacheDir).value
  }

  function Times(files: map<string, int>, watched: set<string>): map<string, int> {
    map f | f in watched :: if f in files then files[f] else 0
  }

  predicate StaleObject(s: State, place: string) {
    place !in s.built || exists f :: f in s.built[place] && !(f in s.files && s.files[f] == s.built[place][f])
  }

  /** Some source with this file is compiled. */
  ghost predicate FileAttempted(setup: Setup, s: State, b: Build, place: string) {
    exists k: nat :: Place(setup, k) == place && Attempted(b.rule, Out(setup, s, b), b.cc, k)
  }

  ghost predicate FileBroken(setup: Setup, s: State, b: Build, place: string) {
    exists k: nat :: Place(setup, k) == place && Broken(b.rule, Out(setup, s, b), b.cc, k)
  }

  ghost predicate Rebuilt(setup: Setup, s: State, b: Build, s': State, place: string) {
    if FileBroken(setup, s, b, place) then place !in s'.built
    else if FileAttempted(setup, s, b, place) then
      place in s'.built && s'.built[place] == Times(s.files, Watched(setup, b.headers, place))
    else
      && (place in s'.built <==> place in s.built) && (place in s.built ==> s'.built[place] == s.built[place])
      && b.headers(place) == s.lists(place)
  }

  /** What the compiler has listed for each source. */
  function ListsOf(b: Build): nat -> seq<string> {
    (k: nat) => b.headers(PlaceOf(b.rule.sources, b.rule.cacheDir, k))
  }

  function EntriesOf(b: Build): seq<Entry> {
    Entries(b.rule, b.fmap, ListsOf(b)) + ToolchainEntries(b.target, b.toolchain)
  }

  ghost predicate BuildStep(setup: Setup, s: State, b: Build, s': State) {
    && Sane(setup, b.rule)
    && if !Called(setup, s, b) then s' == s
       else
         && s'.files == s.files && s'.clock == s.clock && s'.lists == b.headers
         && Marks(b.fmap, b.rule, Out(setup, s, b), b.cc)
         && (forall i: nat :: StorableAt(EntriesOf(b), WorldOf(setup, s, b), i))
         && s'.content == Some(Content(Stamps(EntriesOf(b), WorldOf(setup, s, b))))
         && forall p: string :: Rebuilt(setup, s, b, s', p)
  }

  /** File times are positive and not in the future. */
  ghost predicate Ticking(s: State) {
    s.clock >= 0 && forall f | f in s.files :: 0 < s.files[f] <= s.clock
  }

  /** File times grow with every edit. */
  ghost predicate EditStep(s: State, path: string, time: int, s': State) {
    time > s.clock && s' == s.(files := s.files[path := time], clock := time)
  }

  ghost predicate RemoveStep(s: State, path: string, s': State) {
    s' == s.(files := s.files - {path})
  }

  // ---------------------------------------------------------------- histories

  datatype Event = Edited(path: string, time: int) | Removed(path: string) | Built(build: Build)

  ghost predicate Step(setup: Setup, s: State, e: Event, s': State) {
    match e
    case Edited(path, time) => EditStep(s, path, time, s')
    case Removed(path) => RemoveStep(s, path, s')
    case Built(b) => BuildStep(setup, s, b, s')
  }

  ghost predicate StepAt(setup: Setup, states: seq<State>, events: seq<Event>, i: nat) {
    i < |events| && |states| == |events| + 1 ==> Step(setup, states[i], events[i], states[i + 1])
  }

  /** A history that begins before the first build. */
  ghost predicate History(setup: Setup, states: seq<State>, events: seq<Event>) {
    && |states| == |events| + 1 && Ticking(states[0])
    && states[0].content == None && states[0].built == map[]
    && forall i: nat :: StepAt(setup, states, events, i)
  }

  // ---------------------------------------------------------------- the code takes these steps

  /** _cc_build from node_resolve on, for a rule with all its inputs in place. Not ok when a path is too long. */
  method RunBuild(setup: Setup, s: State, asked: Build)
    returns (ok: bool, content: Option<string>, ghost b: Build, ghost s': State)
    requires Sane(setup, asked.rule) && (s.content.Some? ==> Regular(s.content.value))
    requires forall p: string :: LeavesAlone(setup, s, asked, p)
    ensures b == asked.(fmap := b.fmap)
    ensures !Called(setup, s, asked) ==> ok && content == s.content
    ensures ok ==> content == s'.content
    ensures (forall fmap: set<string> :: CanBeRecorded(asked, Out(setup, s, asked), WorldOf(setup, s, asked), fmap)) ==>
              ok
    ensures ok && (forall i: nat :: StorableAt(EntriesOf(b), WorldOf(setup, s, b), i)) ==> BuildStep(setup, s, b, s')
  {
    b, s', ok, content := asked, s, true, s.content;
    var world := World(s.files, asked.env, asked.sysEnv, setup.cacheDir);
    var r := new Resolver(false, true, asked.rule.vals, asked.target);
    ghost var recs := r.Resolve(s.content, world);
    if r.called {
      var text, fmap;
      assert r.outdated == Out(setup, s, asked) && world == WorldOf(setup, s, asked);
      ok, text, fmap := Compile(asked, r.outdated, world);
      if ok {
        b := asked.(fmap := fmap);
        content := Some(text);
        s' := After(setup, s, b, text);
        if forall i: nat :: StorableAt(EntriesOf(b), WorldOf(setup, s, b), i) {
          BuildDone(setup, s, asked, b, text, r.outdated);
        }
      }
    }
  }

  /** If `fmap` is what the compilers leave, no path to be recorded is too long. */
  ghost predicate CanBeRecorded(b: Build, out: seq<Outdated>, world: World, fmap: set<string>) {
    Marks(fmap, b.rule, out, b.cc) ==> AllLocated(b.rule) && AllStamped(EntriesOf(b.(fmap := fmap)), world)
  }

  lemma RecordableParts(b: Build, out: seq<Outdated>, world: World) returns (fmap: set<string>)
    requires forall fmap: set<string> :: CanBeRecorded(b, out, world, fmap)
    ensures Marks(fmap, b.rule, out, b.cc) && AllLocated(b.rule)
    ensures AllStamped(Entries(b.rule, fmap, ListsOf(b)), world)
    ensures AllStamped(ToolchainEntries(b.target, b.toolchain), world)
  {
    fmap := MarksExist(b.rule, out, b.cc);
    assert CanBeRecorded(b, out, world, fmap);
    StampedParts(Entries(b.rule, fmap, ListsOf(b)), ToolchainEntries(b.target, b.toolchain), world);
  }

  /** on_resolve and what follows it: the new dependency file and the failed paths. */
  method Compile(asked: Build, out: seq<Outdated>, world: World) returns (ok: bool, text: string, fmap: set<string>)
    ensures ok ==> Marks(fmap, asked.rule, out, asked.cc) && Recorded(text, EntriesOf(asked.(fmap := fmap)), world)
    ensures (forall fmap: set<string> :: CanBeRecorded(asked, out, world, fmap)) ==> ok
  {
    ghost var fits := forall fmap: set<string> :: CanBeRecorded(asked, out, world, fmap);
    ghost var marked: set<string> := {};
    if fits { marked := RecordableParts(asked, out, world); }
    var rule := asked.rule;
    var jobs := new Jobs((k: nat) => rule.CachePath(k), asked.cc);
    ghost var ifaces, sources, first, second;
    ok, text, ifaces, sources, first, second := OnResolve(rule, out, jobs, ListsOf(asked), world);
    fmap := jobs.fmap;
    if ok {
      ok, text := AddToolchain(text, asked.target, asked.toolchain, world, Entries(rule, fmap, ListsOf(asked)));
    }
  }

  ghost predicate LeavesAlone(setup: Setup, s: State, b: Build, place: string) {
    !FileAttempted(setup, s, b, place) ==> b.headers(place) == s.lists(place)
  }

  ghost predicate Present(setup: Setup, s: State, b: Build, place: string) {
    if FileAttempted(setup, s, b, place) then !FileBroken(setup, s, b, place) else place in s.built
  }

  ghost function Places(setup: Setup): set<string> {
    set k | 0 <= k < |setup.sources| :: Place(setup, k)
  }

  /** The state after the compilers have run. */
  ghost function After(setup: Setup, s: State, b: Build, text: string): State {
    State(s.files, s.clock, Some(text), b.headers,
      map p | p in Places(setup) + s.built.Keys && Present(setup, s, b, p)
         :: if FileAttempted(setup, s, b, p) then Times(s.files, Watched(setup, b.headers, p)) else s.built[p])
  }

  lemma BuildDone(setup: Setup, s: State, asked: Build, b: Build, text: string, out: seq<Outdated>)
    requires Sane(setup, b.rule) && Called(setup, s, asked) && out == Out(setup, s, asked)
             && b == asked.(fmap := b.fmap)
    requires forall p: string :: LeavesAlone(setup, s, asked, p)
    requires Marks(b.fmap, b.rule, out, b.cc) && Recorded(text, EntriesOf(b), WorldOf(setup, s, b))
    requires forall i: nat :: StorableAt(EntriesOf(b), WorldOf(setup, s, b), i)
    ensures BuildStep(setup, s, b, After(setup, s, b, text))
  {
    forall p: string ensures LeavesAlone(setup, s, b, p) {
      assert LeavesAlone(setup, s, asked, p);
    }
    ObjectsRight(setup, s, b, text);
  }

  lemma ObjectsRight(setup: Setup, s: State, b: Build, text: string)
    requires Sane(setup, b.rule) && forall p: string :: LeavesAlone(setup, s, b, p)
    ensures forall p: string :: Rebuilt(setup, s, b, After(setup, s, b, text), p)
  {
    var s' := After(setup, s, b, text);
    forall p: string ensures Rebuilt(setup, s, b, s', p) {
      assert LeavesAlone(setup, s, b, p);
      AttemptedIsPlace(setup, s, b, p);
    }
  }

  lemma AttemptedIsPlace(setup: Setup, s: State, b: Build, place: string)
    requires Sane(setup, b.rule)
    ensures FileAttempted(setup, s, b, place) ==> place in Places(setup)
    ensures FileBroken(setup, s, b, place) ==> FileAttempted(setup, s, b, place)
  {
  }
}
