/**
 Which sources can be forgotten: exactly those that are not safe. Each of the others is missed by some
 history, and concrete rules show how.
 */
module MissedSource {
  import opened Options
  import opened PathAlgebra
  import opened DepsFormat
  import opened DepsFile
  import opened NodeResolve
  import opened CompileLoop
  import opened CcRule
  import opened Incremental
  import opened Rebuilds
  import Paths

  type Events = seq<Incremental.Event>

  /** A rule with its sources and nothing else. */
  function BareRule(setup: Setup, interfaces: set<string>): Rule {
    Rule(setup.sources, interfaces, [], [], [], [], setup.cacheDir, 1)
  }

  // ---------------------------------------------------------------- two outdated files and nothing else

  ghost predicate HiddenAt(recs: seq<Record>, world: World, vals: Values, i: nat) {
    i < |recs| && Stale(recs[i], world, vals) && recs[i].flags != 's' ==>
      exists x: nat :: Hides(recs, world, vals, x, i)
  }

  /** Stale source record `x` and the stale records after it, up to `i`, are of one file. */
  ghost predicate Hides(recs: seq<Record>, world: World, vals: Values, x: nat, i: nat) {
    && x < i < |recs| && Stale(recs[x], world, vals) && recs[x].flags == 's'
    && forall z: nat :: SameResource(recs, world, vals, x, i, z)
  }

  ghost predicate SameResource(recs: seq<Record>, world: World, vals: Values, x: nat, i: nat, z: nat) {
    x <= z <= i < |recs| && Stale(recs[z], world, vals) ==> recs[z].resource == recs[i].resource
  }

  /** If all others are hidden, only source records are reported. */
  lemma {:induction false} OnlySources(recs: seq<Record>, world: World, vals: Values, n: nat)
    requires forall i: nat :: HiddenAt(recs, world, vals, i)
    requires n <= |recs| && forall z | 0 <= z < |recs| :: recs[z].resource.Some?
    ensures forall o | o in Reported(recs[..n], None, world, vals) :: o.flags == 's'
  {
    if n > 0 {
      var m := n - 1;
      OnlySources(recs, world, vals, m);
      assert recs[..n] == recs[..m] + [recs[m]];
      ReportedMore(recs[..m], None, world, vals, recs[m]);
      if Stale(recs[m], world, vals) && recs[m].flags != 's' {
        assert HiddenAt(recs, world, vals, m);
        var x: nat :| Hides(recs, world, vals, x, m);
        HiddenIsRepeat(recs, world, vals, x, m);
      }
    }
  }

  lemma HiddenIsRepeat(recs: seq<Record>, world: World, vals: Values, x: nat, i: nat)
    requires Hides(recs, world, vals, x, i) && Stale(recs[i], world, vals)
             && forall z | 0 <= z < |recs| :: recs[z].resource.Some?
    ensures LastSeen(Reported(recs[..i], None, world, vals), None) == recs[i].resource
  {
    assert recs[..i][x] == recs[x];
    StaleOrNone(recs[..i], world, vals, x);
    var w := LastReported(recs, i, world, vals);
    assert SameResource(recs, world, vals, x, i, w) && SameResource(recs, world, vals, x, i, x);
  }

  /** A stale record is one of a source of these two files. */
  ghost predicate StaleOnly(setup: Setup, recs: seq<Record>, owners: seq<Option<nat>>, f: string, g: string,
                            world: World, vals: Values, x: nat) {
    x < |recs| && x < |owners| && Stale(recs[x], world, vals) ==>
      owners[x].Some? && (Place(setup, owners[x].value) == f || Place(setup, owners[x].value) == g)
  }

  /** When two files that mask each other are outdated, and nothing else, only source records are reported. */
  lemma PairIsHidden(setup: Setup, rule: Rule, recs: seq<Record>, owners: seq<Option<nat>>, f: string, g: string,
                     world: World, vals: Values, i: nat)
    requires Arranged(setup, rule, recs, owners) && MaskedPair(setup, rule, f, g)
    requires forall x: nat :: StaleOnly(setup, recs, owners, f, g, world, vals, x)
    ensures HiddenAt(recs, world, vals, i)
  {
    if i < |recs| && Stale(recs[i], world, vals) && recs[i].flags != 's' {
      assert StaleOnly(setup, recs, owners, f, g, world, vals, i) && OwnerFlag(setup, rule, recs, owners, i);
      var y := owners[i].value;
      var other := if Place(setup, y) == f then g else f;
      assert Masked(setup, rule, f, g, y) && Masked(setup, rule, g, f, y);
      var q: nat :| Behind(setup, rule, q, y, other);
      var x := StaleTwin(setup, rule, recs, owners, world, vals, i, q);
      assert InOrder(owners, i, x);
      forall z: nat ensures SameResource(recs, world, vals, x, i, z) {
        OneFileBetween(setup, rule, recs, owners, f, g, world, vals, x, i, z, q, y, other);
      }
      assert Hides(recs, world, vals, x, i);
    }
  }

  lemma OneFileBetween(setup: Setup, rule: Rule, recs: seq<Record>, owners: seq<Option<nat>>, f: string, g: string,
                       world: World, vals: Values, x: nat, i: nat, z: nat, q: nat, y: nat, other: string)
    requires Arranged(setup, rule, recs, owners) && OwnerIs(recs, owners, x, q) && OwnerIs(recs, owners, i, y)
    requires StaleOnly(setup, recs, owners, f, g, world, vals, z) && Behind(setup, rule, q, y, other)
    requires (Place(setup, y) == f && other == g) || (Place(setup, y) == g && other == f)
    ensures SameResource(recs, world, vals, x, i, z)
  {
    if x <= z <= i && Stale(recs[z], world, vals) {
      var w := owners[z].value;
      assert InOrder(owners, x, z) && InOrder(owners, z, i) && NotBetween(setup, q, y, other, w);
      assert OwnerFlag(setup, rule, recs, owners, z) && OwnerFlag(setup, rule, recs, owners, i);
    }
  }

  /** Then a source with another name is not compiled. */
  lemma OthersAreMissed(setup: Setup, s: State, b: Build, owners: seq<Option<nat>>, f: string, g: string, a: nat,
                        k: nat)
    requires Arranged(setup, b.rule, Records(s), owners) && MaskedPair(setup, b.rule, f, g)
    requires forall x: nat :: StaleOnly(setup, Records(s), owners, f, g, WorldOf(setup, s, b), b.rule.vals, x)
    requires a < |Records(s)| && Stale(Records(s)[a], WorldOf(setup, s, b), b.rule.vals)
    requires k < |b.rule.sources| && b.rule.sources[k] != f && b.rule.sources[k] != g
    ensures Called(setup, s, b) && !All(Out(setup, s, b)) && !Chosen(setup, s, b, k)
  {
    var recs, world, vals := Records(s), WorldOf(setup, s, b), b.rule.vals;
    forall i: nat ensures HiddenAt(recs, world, vals, i) {
      PairIsHidden(setup, b.rule, recs, owners, f, g, world, vals, i);
    }
    ArrangedResources(setup, b.rule, recs, owners);
    OnlySources(recs, world, vals, |recs|);
    assert recs[..|recs|] == recs;
    StaleOrNone(recs, world, vals, a);
    ReportedPaths(recs, world, vals, b.rule.sources[k]);
    forall i | 0 <= i < |recs| && Stale(recs[i], world, vals) ensures recs[i].resource != Some(b.rule.sources[k]) {
      assert StaleOnly(setup, recs, owners, f, g, world, vals, i) && OwnerFlag(setup, b.rule, recs, owners, i);
    }
  }

  /** A file whose first source is plain masks its interfaces, whatever file without sources is outdated too. */
  lemma UnledIsMasked(setup: Setup, rule: Rule, k: nat, g: string)
    requires rule.sources == setup.sources && k < |setup.sources| && !Led(setup, rule, k)
    requires forall x: nat :: ElsewhereThan(setup, g, x)
    ensures MaskedPair(setup, rule, Place(setup, k), g)
  {
    forall y: nat ensures Masked(setup, rule, Place(setup, k), g, y) && Masked(setup, rule, g, Place(setup, k), y) {
      assert ElsewhereThan(setup, g, y);
      if rule.IsInterface(y) && Place(setup, y) == Place(setup, k) {
        assert !Unshadowed(setup, rule, y);
        var x: nat :| !NotPlainBefore(setup, rule, y, x);
        forall z: nat ensures NotBetween(setup, x, y, g, z) { assert ElsewhereThan(setup, g, z); }
        assert Behind(setup, rule, x, y, g);
      }
    }
  }

  // ---------------------------------------------------------------- steps that can be taken

  const GOOD := Compiler((k: nat) => true, (k: nat) => 0)

  function AllBut(j: nat): Compiler {
    Compiler((k: nat) => k != j, (k: nat) => 0)
  }

  function BuildOf(setup: Setup, interfaces: set<string>, cc: Compiler, headers: string -> seq<string>,
                   fmap: set<string>): Build {
    Build(BareRule(setup, interfaces), map[], map[], cc, headers, None, None, fmap)
  }

  ghost function Next(setup: Setup, s: State, b: Build): State {
    After(setup, s, b, Content(Stamps(EntriesOf(b), WorldOf(setup, s, b))))
  }

  lemma StepExists(setup: Setup, s: State, b: Build)
    requires Sane(setup, b.rule) && Called(setup, s, b) && Marks(b.fmap, b.rule, Out(setup, s, b), b.cc)
    requires forall p: string :: LeavesAlone(setup, s, b, p)
    requires forall i: nat :: StorableAt(EntriesOf(b), WorldOf(setup, s, b), i)
    ensures BuildStep(setup, s, b, Next(setup, s, b))
  {
    ObjectsRight(setup, s, b, Content(Stamps(EntriesOf(b), WorldOf(setup, s, b))));
  }

  // ---------------------------------------------------------------- records that can be stored

  predicate RecordablePath(p: string) {
    |p| < 8192 && Clear(p)
  }

  ghost predicate RecordablePlace(setup: Setup, k: nat) {
    k < |setup.sources| ==> RecordablePath(Place(setup, k))
  }

  /** Paths fit and hold no line break, and `h` is some other file. */
  ghost predicate Usable(setup: Setup, h: string) {
    && Sane(setup, BareRule(setup, {}))
    && (forall k: nat :: RecordablePlace(setup, k))
    && RecordablePath(h) && Lacks(h, SEP) && Canonical(h, setup.cacheDir) == Some(h)
    && forall k: nat :: ElsewhereThan(setup, h, k)
  }

  ghost predicate ElsewhereThan(setup: Setup, h: string, k: nat) {
    k < |setup.sources| ==> Place(setup, k) != h
  }

  lemma SaneAnyInterfaces(setup: Setup, interfaces: set<string>)
    requires Sane(setup, BareRule(setup, {}))
    ensures Sane(setup, BareRule(setup, interfaces))
  {
    forall k: nat ensures FitsAt(BareRule(setup, interfaces), k) {
      assert FitsAt(BareRule(setup, {}), k);
      SamePath(setup, interfaces, k);
    }
  }

  lemma SamePath(setup: Setup, interfaces: set<string>, k: nat)
    ensures BareRule(setup, interfaces).CachePath(k) == BareRule(setup, {}).CachePath(k)
  {
  }

  lemma SmallStorable(rec: Record)
    requires Typed(rec) && (rec.kind == FILE || rec.kind == ALIAS) && (rec.flags == ' ' || rec.flags == 's')
    requires RecordablePath(Text(rec.resource)) && RecordablePath(Text(rec.alias)) && Lacks(Text(rec.alias), SEP)
    requires 0 <= rec.serial < 10
    ensures Storable(rec)
  {
    assert |Print(rec.serial)| == 1;
  }

  /** All files are there, with early times. */
  ghost predicate Early(setup: Setup, s: State, h: string) {
    Places(setup) + {h} <= s.files.Keys && forall f | f in s.files :: 0 < s.files[f] < 10
  }

  ghost predicate OnlyHeader(headers: string -> seq<string>, h: string, place: string) {
    headers(place) == [] || headers(place) == [h]
  }

  lemma EntryStorable(setup: Setup, s: State, b: Build, h: string, q: nat, e: Entry)
    requires Usable(setup, h) && Sane(setup, b.rule) && Early(setup, s, h) && OnlyHeader(b.headers, h, Place(setup, q))
    requires q < |setup.sources| && e in BlockOf(b)(q)
    ensures StampOf(e, WorldOf(setup, s, b)).Some? && Storable(StampOf(e, WorldOf(setup, s, b)).value)
  {
    var src := b.rule.CachePath(q);
    RecordedPlace(setup, b.rule, q);
    EntriesForHold(src, Flag(b.rule, q), src in b.fmap, ListsOf(b)(q), e);
    StampsSmall(e, WorldOf(setup, s, b), Place(setup, q), h);
    assert RecordablePlace(setup, q);
    SmallStorable(StampOf(e, WorldOf(setup, s, b)).value);
  }

  lemma StampsSmall(e: Entry, world: World, place: string, h: string)
    requires e.kind == FILE || e.kind == FILE_OUTDATED || (e.kind == ALIAS && e.alias == h)
    requires Canonical(e.resource, world.cwd) == Some(place) && Canonical(h, world.cwd) == Some(h)
    requires e.serial == 0 && (e.flags == NUL || e.flags == 's')
             && forall f | f in world.files :: 0 <= world.files[f] < 10
    ensures StampOf(e, world).Some?
    ensures var r := StampOf(e, world).value;
            && Typed(r) && (r.kind == FILE || r.kind == ALIAS) && (r.flags == ' ' || r.flags == 's')
               && 0 <= r.serial < 10
            && r.resource == Some(place) && (r.alias == None || r.alias == Some(h))
  {
  }

  lemma AllStorable(setup: Setup, s: State, b: Build, h: string)
    requires Usable(setup, h) && Sane(setup, b.rule) && Early(setup, s, h)
             && b.rule == BareRule(setup, b.rule.interfaces)
    requires b.target == None && forall p: string :: OnlyHeader(b.headers, h, p)
    ensures forall i: nat :: StorableAt(EntriesOf(b), WorldOf(setup, s, b), i)
  {
    var es := EntriesOf(b);
    NothingElse(b);
    forall i: nat ensures StorableAt(es, WorldOf(setup, s, b), i) {
      if i < |es| {
        var q := OfFlatten(|b.rule.sources|, BlockOf(b), es[i]);
        assert OnlyHeader(b.headers, h, Place(setup, q));
        EntryStorable(setup, s, b, h, q, es[i]);
      }
    }
  }

  lemma NothingElse(b: Build)
    requires b.rule.unitFiles == [] && b.rule.vals == [] && b.rule.consumes == [] && b.rule.moduleFiles == []
             && b.target == None
    ensures Heading(b.rule) == [] && Trailing(b) == [] && EntriesOf(b) == Flatten(|b.rule.sources|, BlockOf(b))
  {
    EntriesInThree(b);
  }

  /** A source record of the new file: made from the present files, or from a failure. */
  lemma OwnedHere(setup: Setup, s: State, b: Build, s': State, i: nat)
    requires BuildStep(setup, s, b, s') && Called(setup, s, b) && i < |Records(s')|
             && b.rule == BareRule(setup, b.rule.interfaces) && b.target == None
    ensures |OwnersOf(b)| == |Records(s')| && OwnersOf(b)[i].Some?
    ensures OwnedBy(setup, s, b, FailedSources(b), Records(s')[i], OwnersOf(b)[i].value)
  {
    AllOwned(b);
    BuildLeaves(setup, s, b, s');
    assert OwnedAt(setup, s, b, FailedSources(b), Records(s'), OwnersOf(b), i);
  }

  lemma AllOwned(b: Build)
    requires b.rule.unitFiles == [] && b.rule.vals == [] && b.rule.consumes == [] && b.rule.moduleFiles == []
             && b.target == None
    ensures forall i | 0 <= i < |OwnersOf(b)| :: OwnersOf(b)[i].Some?
  {
    NothingElse(b);
  }

  // ---------------------------------------------------------------- stories

  ghost predicate UsesAt(events: Events, interfaces: set<string>, x: nat) {
    x < |events| && events[x].Built? ==> events[x].build.rule.interfaces == interfaces
  }

  /** A history with these interfaces throughout. */
  ghost predicate Story(setup: Setup, interfaces: set<string>, states: seq<State>, events: Events) {
    History(setup, states, events) && forall x: nat :: UsesAt(events, interfaces, x)
  }

  /** In this story build `i` does not compile source `k` although its object is stale. */
  ghost predicate MissIn(setup: Setup, interfaces: set<string>, k: nat, states: seq<State>, events: Events, i: nat) {
    && Story(setup, interfaces, states, events) && i < |events| && events[i].Built?
    && StaleObject(states[i], Place(setup, k)) && !Chosen(setup, states[i], events[i].build, k)
  }

  ghost predicate NeverMissed(setup: Setup, interfaces: set<string>, k: nat) {
    forall states: seq<State>, events: Events, i: nat :: !MissIn(setup, interfaces, k, states, events, i)
  }

  /** Source `x`, if it has the file of `k`, is missed there. */
  ghost predicate MissAt(setup: Setup, interfaces: set<string>, k: nat, states: seq<State>, events: Events, i: nat,
                         x: nat) {
    x < |setup.sources| && Place(setup, x) == Place(setup, k) ==> MissIn(setup, interfaces, x, states, events, i)
  }

  /** No source of the file is compiled although the object is stale. */
  ghost predicate LeftIn(setup: Setup, interfaces: set<string>, k: nat, states: seq<State>, events: Events, i: nat) {
    forall x: nat :: MissAt(setup, interfaces, k, states, events, i, x)
  }

  ghost predicate NeverLeft(setup: Setup, interfaces: set<string>, k: nat) {
    forall states: seq<State>, events: Events, i: nat :: !LeftIn(setup, interfaces, k, states, events, i)
  }

  lemma StoryBegins(setup: Setup, interfaces: set<string>, s: State)
    requires Ticking(s) && s.content == None && s.built == map[]
    ensures Story(setup, interfaces, [s], [])
  {
    forall i: nat ensures StepAt(setup, [s], [], i) && UsesAt([], interfaces, i) {}
  }

  lemma StoryGoesOn(setup: Setup, interfaces: set<string>, states: seq<State>, events: Events, e: Incremental.Event,
                  s': State)
    requires Story(setup, interfaces, states, events) && Incremental.Step(setup, states[|states| - 1], e, s')
    requires e.Built? ==> e.build.rule.interfaces == interfaces
    ensures Story(setup, interfaces, states + [s'], events + [e])
  {
    var states', events' := states + [s'], events + [e];
    forall i: nat ensures StepAt(setup, states', events', i) && UsesAt(events', interfaces, i) {
      assert StepAt(setup, states, events, i) && UsesAt(events, interfaces, i);
      if i < |events| {
        assert states'[i] == states[i] && events'[i] == events[i] && states'[i + 1] == states[i + 1];
      } else if i == |events| {
        assert states'[i] == states[i] && events'[i] == e && states'[i + 1] == s';
      }
    }
  }

  // ---------------------------------------------------------------- good builds

  /** All files are there, from the beginning of time. */
  ghost function Start(setup: Setup, h: string, headers: string -> seq<string>): State {
    State(map f | f in Places(setup) + {h} :: 1, 1, None, headers, map[])
  }

  /** Two files that include `h`. */
  function HeadersFor(f: string, g: string, h: string): string -> seq<string> {
    (p: string) => if p == f || p == g then [h] else []
  }

  const NO_HEADERS: string -> seq<string> := (p: string) => []

  /** A first build selects everything. */
  lemma FirstBuild(setup: Setup, h: string, b: Build, s: State)
    requires s == Start(setup, h, b.headers)
    ensures Called(setup, s, b) && Records(s) == [] && Out(setup, s, b) == [] && Early(setup, s, h) && Ticking(s)
    ensures forall k: nat :: k < |b.rule.sources| ==> Selected(b.rule, Out(setup, s, b), k)
  {
  }

  lemma GoodMarks(rule: Rule, out: seq<Outdated>)
    ensures Marks({}, rule, out, GOOD) && forall k: nat :: !Bad(GOOD, k)
  {
    forall p: string ensures MarkedPath({}, rule, out, GOOD, p) {}
  }

  /** A good build of a bare rule can be taken; it leaves the lists of headers as they were. */
  lemma GoodStep(setup: Setup, s: State, b: Build, h: string)
    requires Usable(setup, h) && b == BuildOf(setup, b.rule.interfaces, GOOD, b.headers, {}) && s.lists == b.headers
    requires Called(setup, s, b) && Early(setup, s, h) && forall p: string :: OnlyHeader(b.headers, h, p)
    ensures BuildStep(setup, s, b, Next(setup, s, b))
  {
    SaneAnyInterfaces(setup, b.rule.interfaces);
    GoodMarks(b.rule, Out(setup, s, b));
    AllStorable(setup, s, b, h);
    forall p: string ensures LeavesAlone(setup, s, b, p) {}
    StepExists(setup, s, b);
  }

  /** A good first build, and the edit of a file. */
  ghost predicate Opens(setup: Setup, h: string, b: Build, s1: State, file: string, s2: State) {
    && Usable(setup, h) && b == BuildOf(setup, b.rule.interfaces, GOOD, b.headers, {})
    && (forall p: string :: OnlyHeader(b.headers, h, p)) && file in Places(setup) + {h}
    && BuildStep(setup, Start(setup, h, b.headers), b, s1) && s2 == s1.(files := s1.files[file := 2], clock := 2)
  }

  lemma Opening(setup: Setup, interfaces: set<string>, headers: string -> seq<string>, h: string, file: string)
    returns (b: Build, s1: State, s2: State, states: seq<State>, events: Events)
    requires Usable(setup, h) && (forall p: string :: OnlyHeader(headers, h, p)) && file in Places(setup) + {h}
    ensures b == BuildOf(setup, interfaces, GOOD, headers, {}) && Opens(setup, h, b, s1, file, s2)
    ensures Story(setup, interfaces, states, events) && |states| == 3 && states[2] == s2
            && events == [Built(b), Edited(file, 2)]
  {
    b := BuildOf(setup, interfaces, GOOD, headers, {});
    var s0 := Start(setup, h, headers);
    s1 := FirstGoodStep(setup, h, b, s0);
    s2 := s1.(files := s1.files[file := 2], clock := 2);
    states, events := OpeningStory(setup, interfaces, b, s0, s1, file, s2);
  }

  lemma FirstGoodStep(setup: Setup, h: string, b: Build, s0: State) returns (s1: State)
    requires Usable(setup, h) && s0 == Start(setup, h, b.headers)
             && b == BuildOf(setup, b.rule.interfaces, GOOD, b.headers, {})
    requires forall p: string :: OnlyHeader(b.headers, h, p)
    ensures BuildStep(setup, s0, b, s1) && s1.clock == 1 && Ticking(s0) && s0.content == None && s0.built == map[]
  {
    FirstBuild(setup, h, b, s0);
    GoodStep(setup, s0, b, h);
    s1 := Next(setup, s0, b);
  }

  lemma OpeningStory(setup: Setup, interfaces: set<string>, b: Build, s0: State, s1: State, file: string, s2: State)
    returns (states: seq<State>, events: Events)
    requires Ticking(s0) && s0.content == None && s0.built == map[]
    requires BuildStep(setup, s0, b, s1) && EditStep(s1, file, 2, s2) && b.rule.interfaces == interfaces
    ensures Story(setup, interfaces, states, events) && |states| == 3 && states[2] == s2
            && events == [Built(b), Edited(file, 2)]
  {
    StoryBegins(setup, interfaces, s0);
    StoryGoesOn(setup, interfaces, [s0], [], Built(b), s1);
    StoryGoesOn(setup, interfaces, [s0] + [s1], [] + [Built(b)], Edited(file, 2), s2);
    states, events := [s0] + [s1] + [s2], [] + [Built(b)] + [Edited(file, 2)];
  }

  /** What is then on record, and that every object was built from the first files. */
  lemma AfterOpening(setup: Setup, h: string, b: Build, s1: State, file: string, s2: State)
    requires Opens(setup, h, b, s1, file, s2)
    ensures Arranged(setup, b.rule, Records(s2), OwnersOf(b)) && Records(s2) == Records(s1)
    ensures Early(setup, s2, h) && s2.lists == b.headers && Sane(setup, b.rule)
  {
    FirstBuild(setup, h, b, Start(setup, h, b.headers));
    BuildArranges(setup, Start(setup, h, b.headers), b, s1);
  }

  /** A record is stale exactly if its file was edited. */
  lemma StaleIsEdited(setup: Setup, h: string, b: Build, s1: State, file: string, s2: State, world: World, vals: Values,
                      x: nat)
    requires Opens(setup, h, b, s1, file, s2) && x < |Records(s1)| && world.files == s2.files
    ensures |OwnersOf(b)| == |Records(s1)| && OwnersOf(b)[x].Some? && OwnersOf(b)[x].value < |setup.sources|
    ensures Records(s2) == Records(s1)
    ensures Stale(Records(s1)[x], world, vals) <==> WatchedFile(Records(s1)[x]) == file
    ensures WatchedFile(Records(s1)[x]) in Watched(setup, b.headers, Place(setup, OwnersOf(b)[x].value))
  {
    var s0 := Start(setup, h, b.headers);
    FirstBuild(setup, h, b, s0);
    OwnedHere(setup, s0, b, s1, x);
    NoneFailed(b);
    var r, q := Records(s1)[x], OwnersOf(b)[x].value;
    assert OnlyHeader(b.headers, h, Place(setup, q));
    FreshRecord(setup, h, s0, b, r, q);
    StaleByTime(r, world, vals);
  }

  lemma StaleByTime(r: Record, world: World, vals: Values)
    requires r.kind == FILE || r.kind == ALIAS
    ensures Stale(r, world, vals) <==> WatchedFile(r) !in world.files || world.files[WatchedFile(r)] > r.serial
  {
  }

  lemma NoneFailed(b: Build)
    requires b.fmap == {}
    ensures FailedSources(b) == {}
  {
  }

  /** The record of a source that did not fail holds the present time of an existing file. */
  lemma FreshRecord(setup: Setup, h: string, s: State, b: Build, r: Record, q: nat)
    requires Usable(setup, h) && Early(setup, s, h) && OwnedBy(setup, s, b, FailedSources(b), r, q)
    requires q !in FailedSources(b) && OnlyHeader(b.headers, h, Place(setup, q))
    ensures WatchedFile(r) in s.files && r.serial == s.files[WatchedFile(r)]
    ensures WatchedFile(r) == Place(setup, q) || (WatchedFile(r) == h && b.headers(Place(setup, q)) == [h])
  {
    assert Place(setup, q) in Places(setup);
  }

  /** A watched file that was edited has a stale record for each source that watches it. */
  lemma EditedIsOnRecord(setup: Setup, h: string, b: Build, s1: State, file: string, s2: State, world: World,
                         vals: Values, y: nat) returns (i: nat)
    requires Opens(setup, h, b, s1, file, s2) && world.files == s2.files
    requires y < |setup.sources| && file in Watched(setup, b.headers, Place(setup, y))
    ensures OwnerIs(Records(s1), OwnersOf(b), i, y) && Stale(Records(s1)[i], world, vals)
    ensures Records(s1)[i].resource == Some(Place(setup, y))
  {
    var s0 := Start(setup, h, b.headers);
    FirstBuild(setup, h, b, s0);
    BuildLeaves(setup, s0, b, s1);
    NoneFailed(b);
    assert HasFile(setup, s0, b, FailedSources(b), Records(s1), OwnersOf(b), y, file);
    i :| OwnerIs(Records(s1), OwnersOf(b), i, y)
         && Watches(Records(s1)[i], file, Place(setup, y), Time(s0.files, file));
    StaleIsEdited(setup, h, b, s1, file, s2, world, vals, i);
  }

  lemma EditedIsStale(setup: Setup, h: string, b: Build, s1: State, file: string, s2: State, k: nat)
    requires Opens(setup, h, b, s1, file, s2)
    requires k < |setup.sources| && file in Watched(setup, b.headers, Place(setup, k))
    ensures StaleObject(s2, Place(setup, k))
  {
    var s0, place := Start(setup, h, b.headers), Place(setup, k);
    FirstBuild(setup, h, b, s0);
    GoodMarks(b.rule, Out(setup, s0, b));
    assert Attempted(b.rule, Out(setup, s0, b), b.cc, k);
    assert Rebuilt(setup, s0, b, s1, place) && FileAttempted(setup, s0, b, place) && !FileBroken(setup, s0, b, place);
    assert s1.built[place][file] == 1;
  }

  /** The story of an edit ends with a good build. */
  lemma EditEnds(setup: Setup, interfaces: set<string>, h: string, file: string, b: Build, s1: State, s2: State,
                   states: seq<State>, events: Events) returns (states': seq<State>, events': Events)
    requires Story(setup, interfaces, states, events) && |states| == 3 && states[2] == s2
             && events == [Built(b), Edited(file, 2)]
    requires b.rule.interfaces == interfaces && Opens(setup, h, b, s1, file, s2) && Called(setup, s2, b)
    ensures Story(setup, interfaces, states', events') && |events'| == 3 && events'[1] == Edited(file, 2)
    ensures states'[2] == s2 && events'[2] == Built(b)
  {
    AfterOpening(setup, h, b, s1, file, s2);
    GoodStep(setup, s2, b, h);
    StoryGoesOn(setup, interfaces, states, events, Built(b), Next(setup, s2, b));
    states', events' := states + [Next(setup, s2, b)], events + [Built(b)];
  }

  // ---------------------------------------------------------------- a changed header

  lemma HeaderIsNoSource(setup: Setup, h: string, k: nat)
    requires Usable(setup, h) && k < |setup.sources|
    ensures setup.sources[k] != h
  {
    assert FitsAt(BareRule(setup, {}), k) && ElsewhereThan(setup, h, k);
    Paths.FoundIsMeaning(setup.sources[k], setup.cacheDir);
  }

  /** After the edit of `h` the stale records are those of the files that include it. */
  lemma OnlyIncluders(setup: Setup, h: string, f: string, g: string, b: Build, s1: State, s2: State, world: World,
                      vals: Values, x: nat)
    requires Opens(setup, h, b, s1, h, s2) && b.headers == HeadersFor(f, g, h) && world.files == s2.files
    ensures StaleOnly(setup, Records(s2), OwnersOf(b), f, g, world, vals, x)
  {
    if x < |Records(s1)| {
      StaleIsEdited(setup, h, b, s1, h, s2, world, vals, x);
      var q := OwnersOf(b)[x].value;
      assert ElsewhereThan(setup, h, q);
      IncluderPlace(setup, h, f, g, Place(setup, q));
    }
  }

  lemma IncluderPlace(setup: Setup, h: string, f: string, g: string, place: string)
    ensures h in Watched(setup, HeadersFor(f, g, h), place) ==> place == f || place == g || place == h
  {
    WatchesItself(setup, HeadersFor(f, g, h), place);
  }

  lemma WatchesItself(setup: Setup, headers: string -> seq<string>, place: string)
    ensures headers(place) == [] ==> Watched(setup, headers, place) == {place}
  {
  }

  /** Then only canonical sources of the file are compiled, if its first source is plain. */
  lemma HeaderNamesFile(setup: Setup, h: string, k: nat, b: Build, s1: State, s2: State, x: nat)
    requires Opens(setup, h, b, s1, h, s2) && b.headers == HeadersFor(Place(setup, k), h, h)
    requires k < |setup.sources| && !Led(setup, b.rule, k) && x < |setup.sources|
             && setup.sources[x] != Place(setup, k)
    ensures Called(setup, s2, b) && !Chosen(setup, s2, b, x)
  {
    var f, world := Place(setup, k), WorldOf(setup, s2, b);
    AfterOpening(setup, h, b, s1, h, s2);
    UnledIsMasked(setup, b.rule, k, h);
    forall z: nat ensures StaleOnly(setup, Records(s2), OwnersOf(b), f, h, world, b.rule.vals, z) {
      OnlyIncluders(setup, h, f, h, b, s1, s2, world, b.rule.vals, z);
    }
    var a := EditedIsOnRecord(setup, h, b, s1, h, s2, world, b.rule.vals, k);
    HeaderIsNoSource(setup, h, x);
    OthersAreMissed(setup, s2, b, OwnersOf(b), f, h, a, x);
  }

  /**
   A source spelled otherwise, of a file whose first source is plain, is missed when a header changes: only
   the canonical name is reported.
   */
  lemma HeaderIsMissed(setup: Setup, interfaces: set<string>, k: nat, h: string)
    returns (states: seq<State>, events: Events)
    requires Usable(setup, h) && k < |setup.sources| && !Led(setup, BareRule(setup, interfaces), k)
             && !IsCanonical(setup, k)
    ensures |events| == 3 && events[1] == Edited(h, 2)
    ensures forall x: nat :: !IsCanonical(setup, x) ==> MissAt(setup, interfaces, k, states, events, 2, x)
  {
    var b, s1, s2;
    b, s1, s2, states, events := Opening(setup, interfaces, HeadersFor(Place(setup, k), h, h), h, h);
    HeaderNamesFile(setup, h, k, b, s1, s2, k);
    EditedIsStale(setup, h, b, s1, h, s2, k);
    states, events := EditEnds(setup, interfaces, h, h, b, s1, s2, states, events);
    forall x: nat | !IsCanonical(setup, x) ensures MissAt(setup, interfaces, k, states, events, 2, x) {
      if x < |setup.sources| && Place(setup, x) == Place(setup, k) {
        HeaderNamesFile(setup, h, k, b, s1, s2, x);
      }
    }
  }

  // ---------------------------------------------------------------- a hidden failure

  /** A build in which interface `j` fails. */
  function FailingBuild(setup: Setup, interfaces: set<string>, j: nat, headers: string -> seq<string>): Build {
    BuildOf(setup, interfaces, AllBut(j), headers, {BareRule(setup, interfaces).CachePath(j)})
  }

  lemma FailingMarks(rule: Rule, out: seq<Outdated>, j: nat)
    requires rule.IsInterface(j) && Selected(rule, out, j)
    ensures Marks({rule.CachePath(j)}, rule, out, AllBut(j)) && BadInterface(rule, out, AllBut(j))
  {
    assert Bad(AllBut(j), j);
    var path := rule.CachePath(j);
    assert Broken(rule, out, AllBut(j), j);
    forall p: string ensures MarkedPath({path}, rule, out, AllBut(j), p) {}
  }

  /** Interface `j` is selected in state `s`, fails, and leads to state `s'`. */
  ghost predicate Fails(setup: Setup, interfaces: set<string>, j: nat, h: string, s: State, b: Build, s': State) {
    && Usable(setup, h) && j < |setup.sources| && BareRule(setup, interfaces).IsInterface(j)
    && Early(setup, s, h) && b == FailingBuild(setup, interfaces, j, s.lists)
    && (forall p: string :: OnlyHeader(s.lists, h, p))
    && Chosen(setup, s, b, j) && BuildStep(setup, s, b, s')
  }

  lemma FailingStep(setup: Setup, interfaces: set<string>, j: nat, h: string, s: State) returns (b: Build, s': State)
    requires Usable(setup, h) && j < |setup.sources| && BareRule(setup, interfaces).IsInterface(j)
    requires Early(setup, s, h) && forall p: string :: OnlyHeader(s.lists, h, p)
    requires Chosen(setup, s, FailingBuild(setup, interfaces, j, s.lists), j)
    ensures b == FailingBuild(setup, interfaces, j, s.lists) && Fails(setup, interfaces, j, h, s, b, s')
  {
    b := FailingBuild(setup, interfaces, j, s.lists);
    s' := Next(setup, s, b);
    SaneAnyInterfaces(setup, interfaces);
    FailingMarks(b.rule, Out(setup, s, b), j);
    forall p: string ensures LeavesAlone(setup, s, b, p) {}
    AllStorable(setup, s, b, h);
    StepExists(setup, s, b);
  }

  /** The sources recorded as failed are those of the file of `j`. */
  lemma FailedAreSameFile(setup: Setup, interfaces: set<string>, j: nat, headers: string -> seq<string>, q: nat,
                          h: string)
    requires Usable(setup, h) && j < |setup.sources| && q < |setup.sources|
    ensures q in FailedSources(FailingBuild(setup, interfaces, j, headers)) <==> Place(setup, q) == Place(setup, j)
  {
    var b := FailingBuild(setup, interfaces, j, headers);
    SaneAnyInterfaces(setup, interfaces);
    RecordedPlace(setup, b.rule, j);
    RecordedPlace(setup, b.rule, q);
    InFailed(b, q);
  }

  /** Then a record is stale exactly if it is of that file. */
  lemma FailedIsStale(setup: Setup, interfaces: set<string>, j: nat, h: string, s: State, b: Build, s': State,
                      world: World, vals: Values, x: nat)
    requires Fails(setup, interfaces, j, h, s, b, s') && x < |Records(s')| && world.files == s.files
    ensures |OwnersOf(b)| == |Records(s')| && OwnersOf(b)[x].Some?
    ensures Stale(Records(s')[x], world, vals) <==> Place(setup, OwnersOf(b)[x].value) == Place(setup, j)
  {
    OwnedHere(setup, s, b, s', x);
    var q := OwnersOf(b)[x].value;
    FailedAreSameFile(setup, interfaces, j, s.lists, q, h);
    assert Place(setup, q) in Places(setup);
    if q !in FailedSources(b) {
      assert OnlyHeader(s.lists, h, Place(setup, q));
      FreshRecord(setup, h, s, b, Records(s')[x], q);
    }
  }

  lemma FailureOnRecord(setup: Setup, interfaces: set<string>, j: nat, h: string, s: State, b: Build, s': State,
                        world: World, vals: Values) returns (a: nat)
    requires Fails(setup, interfaces, j, h, s, b, s') && world.files == s.files
    ensures a < |Records(s')| && Stale(Records(s')[a], world, vals)
  {
    BuildLeaves(setup, s, b, s');
    assert HasRecord(setup, Records(s'), OwnersOf(b), j);
    a :| OwnerIs(Records(s'), OwnersOf(b), a, j);
    FailedIsStale(setup, interfaces, j, h, s, b, s', world, vals, a);
  }

  lemma NameOfFile(setup: Setup, x: nat, j: nat)
    requires x < |setup.sources| && j < |setup.sources| && setup.sources[x] == Place(setup, j)
    ensures Place(setup, x) == Place(setup, j)
  {
    NormalIdempotent(setup.sources[j], setup.cacheDir, setup.cacheDir);
  }

  /** If the first source of the failed file is plain, the next build compiles no source of another file. */
  lemma OnlyFailedFile(setup: Setup, interfaces: set<string>, j: nat, h: string, s: State, b: Build, s': State,
                       b': Build, x: nat)
    requires Fails(setup, interfaces, j, h, s, b, s') && !Led(setup, b.rule, j) && b'.rule == b.rule
    requires x < |setup.sources| && Place(setup, x) != Place(setup, j)
    ensures Called(setup, s', b') && !Chosen(setup, s', b', x)
  {
    var f, world := Place(setup, j), WorldOf(setup, s', b');
    BuildArranges(setup, s, b, s');
    UnledIsMasked(setup, b.rule, j, h);
    forall z: nat ensures StaleOnly(setup, Records(s'), OwnersOf(b), f, h, world, b'.rule.vals, z) {
      if z < |Records(s')| { FailedIsStale(setup, interfaces, j, h, s, b, s', world, b'.rule.vals, z); }
    }
    var a := FailureOnRecord(setup, interfaces, j, h, s, b, s', world, b'.rule.vals);
    if setup.sources[x] == f { NameOfFile(setup, x, j); }
    HeaderIsNoSource(setup, h, x);
    OthersAreMissed(setup, s', b', OwnersOf(b), f, h, a, x);
  }

  ghost predicate NoInterfaceSelected(setup: Setup, s: State, b: Build, place: string, x: nat) {
    Place(setup, x) == place && b.rule.IsInterface(x) ==> !Selected(b.rule, Out(setup, s, b), x)
  }

  /** A stale object stays stale when no interface of its file is selected. */
  lemma SkippedStays(setup: Setup, interfaces: set<string>, j: nat, h: string, s: State, b: Build, s': State,
                     place: string)
    requires Fails(setup, interfaces, j, h, s, b, s') && StaleObject(s, place)
    requires forall x: nat :: NoInterfaceSelected(setup, s, b, place, x)
    ensures StaleObject(s', place) && Early(setup, s', h) && s'.lists == s.lists
  {
    FailingMarks(b.rule, Out(setup, s, b), j);
    forall x: nat | Place(setup, x) == place ensures !Attempted(b.rule, Out(setup, s, b), b.cc, x) {
      assert NoInterfaceSelected(setup, s, b, place, x);
    }
    assert Rebuilt(setup, s, b, s', place);
  }

  /** The object of source `k` is stale, and the failure of `j` would keep it so without being noticed. */
  ghost predicate Poised(setup: Setup, interfaces: set<string>, j: nat, k: nat, h: string, s: State) {
    var b := FailingBuild(setup, interfaces, j, s.lists);
    && j < |setup.sources| && k < |setup.sources| && b.rule.IsInterface(j) && !Led(setup, b.rule, j)
    && Place(setup, j) != Place(setup, k) && Early(setup, s, h) && StaleObject(s, Place(setup, k))
    && (forall p: string :: OnlyHeader(s.lists, h, p)) && Chosen(setup, s, b, j)
    && forall x: nat :: NoInterfaceSelected(setup, s, b, Place(setup, k), x)
  }

  /** Then the story goes on with a build in which `j` fails and one that misses the skipped file. */
  lemma FailureEnds(setup: Setup, interfaces: set<string>, j: nat, k: nat, h: string, states: seq<State>,
                    events: Events, n: nat) returns (states': seq<State>, events': Events)
    requires Usable(setup, h) && Story(setup, interfaces, states, events)
             && n == |events| + 1 && Poised(setup, interfaces, j, k, h, states[|events|])
    ensures LeftIn(setup, interfaces, k, states', events', n)
  {
    var s := states[|events|];
    var b, s' := FailingStep(setup, interfaces, j, h, s);
    SkippedStays(setup, interfaces, j, h, s, b, s', Place(setup, k));
    var b' := BuildOf(setup, interfaces, GOOD, s'.lists, {});
    OnlyFailedFile(setup, interfaces, j, h, s, b, s', b', k);
    states', events' := FailureStory(setup, interfaces, h, states, events, b, s', b');
    forall x: nat ensures MissAt(setup, interfaces, k, states', events', n, x) {
      if x < |setup.sources| && Place(setup, x) == Place(setup, k) {
        OnlyFailedFile(setup, interfaces, j, h, s, b, s', b', x);
      }
    }
  }

  lemma FailureStory(setup: Setup, interfaces: set<string>, h: string, states: seq<State>, events: Events,
                     b: Build, s': State, b': Build) returns (states': seq<State>, events': Events)
    requires Usable(setup, h) && Story(setup, interfaces, states, events)
    requires BuildStep(setup, states[|events|], b, s') && b.rule.interfaces == interfaces
    requires b' == BuildOf(setup, interfaces, GOOD, s'.lists, {}) && Called(setup, s', b')
    requires Early(setup, s', h) && forall p: string :: OnlyHeader(s'.lists, h, p)
    ensures Story(setup, interfaces, states', events') && |events'| == |events| + 2
    ensures states'[|events| + 1] == s' && events'[|events| + 1] == Built(b')
  {
    GoodStep(setup, s', b', h);
    StoryGoesOn(setup, interfaces, states, events, Built(b), s');
    StoryGoesOn(setup, interfaces, states + [s'], events + [Built(b)], Built(b'), Next(setup, s', b'));
    states', events' := states + [s'] + [Next(setup, s', b')], events + [Built(b)] + [Built(b')];
  }

  /** A file without interfaces, skipped in the first build because of such a failure, is missed by the next. */
  lemma FailureIsMissed(setup: Setup, interfaces: set<string>, j: nat, k: nat, h: string)
    returns (states: seq<State>, events: Events)
    requires Usable(setup, h) && k < |setup.sources| && j < |setup.sources|
    requires var rule := BareRule(setup, interfaces);
             rule.IsInterface(j) && !HasInterface(setup, rule, k) && !Led(setup, rule, j)
    ensures LeftIn(setup, interfaces, k, states, events, 1)
  {
    states, events := [Start(setup, h, NO_HEADERS)], [];
    var n := 1;
    PoisedAtStart(setup, interfaces, j, k, h, states[0]);
    StoryBegins(setup, interfaces, states[0]);
    states, events := FailureEnds(setup, interfaces, j, k, h, states, events, n);
  }

  lemma PoisedAtStart(setup: Setup, interfaces: set<string>, j: nat, k: nat, h: string, s0: State)
    requires s0 == Start(setup, h, NO_HEADERS) && k < |setup.sources| && j < |setup.sources|
    requires var rule := BareRule(setup, interfaces);
             rule.IsInterface(j) && !HasInterface(setup, rule, k) && !Led(setup, rule, j)
    ensures Poised(setup, interfaces, j, k, h, s0) && Ticking(s0) && s0.content == None && s0.built == map[]
  {
    var b := FailingBuild(setup, interfaces, j, NO_HEADERS);
    FirstBuild(setup, h, b, s0);
    forall x: nat ensures NoInterfaceSelected(setup, s0, b, Place(setup, k), x) {}
    assert Place(setup, j) != Place(setup, k);
  }

  /**
   A canonical plain source whose file has interfaces too, but masked ones: missed after a build that
   compiles only canonical sources, in which a canonical interface of another file fails.
   */
  lemma TwinIsMissed(setup: Setup, interfaces: set<string>, j: nat, k: nat, h: string)
    returns (states: seq<State>, events: Events)
    requires Usable(setup, h) && IsCanonical(setup, k) && IsCanonical(setup, j) && Place(setup, j) != Place(setup, k)
    requires var rule := BareRule(setup, interfaces);
             && rule.IsInterface(j) && !rule.IsInterface(k) && !Led(setup, rule, j)
             && MaskedPair(setup, rule, Place(setup, k), Place(setup, j))
    ensures LeftIn(setup, interfaces, k, states, events, 3)
  {
    var b, s1, s2;
    b, s1, s2, states, events :=
      Opening(setup, interfaces, HeadersFor(Place(setup, k), Place(setup, j), h), h, h);
    PoisedLater(setup, interfaces, j, k, h, b, s1, s2);
    var n := 3;
    states, events := FailureEnds(setup, interfaces, j, k, h, states, events, n);
  }

  lemma PoisedLater(setup: Setup, interfaces: set<string>, j: nat, k: nat, h: string, b: Build, s1: State, s2: State)
    requires b.rule == BareRule(setup, interfaces) && Opens(setup, h, b, s1, h, s2)
    requires b.headers == HeadersFor(Place(setup, k), Place(setup, j), h) && !Led(setup, b.rule, j)
    requires IsCanonical(setup, k) && IsCanonical(setup, j) && b.rule.IsInterface(j) && !b.rule.IsInterface(k)
    requires MaskedPair(setup, b.rule, Place(setup, k), Place(setup, j)) && Place(setup, j) != Place(setup, k)
    ensures Poised(setup, interfaces, j, k, h, s2)
  {
    AfterOpening(setup, h, b, s1, h, s2);
    EditedIsStale(setup, h, b, s1, h, s2, k);
    BothNamed(setup, interfaces, j, k, h, b, s1, s2);
  }

  /** After the edit of a header of two masked files, exactly their canonical sources are selected. */
  lemma BothNamed(setup: Setup, interfaces: set<string>, j: nat, k: nat, h: string, b: Build, s1: State, s2: State)
    requires b.rule == BareRule(setup, interfaces) && Opens(setup, h, b, s1, h, s2)
    requires b.headers == HeadersFor(Place(setup, k), Place(setup, j), h)
    requires IsCanonical(setup, k) && IsCanonical(setup, j) && b.rule.IsInterface(j) && !b.rule.IsInterface(k)
    requires MaskedPair(setup, b.rule, Place(setup, k), Place(setup, j)) && Place(setup, j) != Place(setup, k)
    ensures var bad := FailingBuild(setup, interfaces, j, s2.lists);
            Chosen(setup, s2, bad, j) && forall x: nat :: NoInterfaceSelected(setup, s2, bad, Place(setup, k), x)
  {
    var bad := FailingBuild(setup, interfaces, j, s2.lists);
    var f, g, world := Place(setup, k), Place(setup, j), WorldOf(setup, s2, bad);
    AfterOpening(setup, h, b, s1, h, s2);
    forall x: nat ensures StaleOnly(setup, Records(s2), OwnersOf(b), f, g, world, bad.rule.vals, x) {
      OnlyIncluders(setup, h, f, g, b, s1, s2, world, bad.rule.vals, x);
    }
    var a := EditedIsOnRecord(setup, h, b, s1, h, s2, world, bad.rule.vals, j);
    ArrangedResources(setup, b.rule, Records(s2), OwnersOf(b));
    StaleIsReported(Records(s2), None, world, bad.rule.vals, a);
    forall x: nat ensures NoInterfaceSelected(setup, s2, bad, f, x) {
      if Place(setup, x) == f && bad.rule.IsInterface(x) {
        NameOfTwin(setup, bad.rule, x, k, j);
        OthersAreMissed(setup, s2, bad, OwnersOf(b), f, g, a, x);
      }
    }
  }

  /** An interface of the file of a canonical plain source is spelled otherwise. */
  lemma NameOfTwin(setup: Setup, rule: Rule, x: nat, k: nat, j: nat)
    requires rule.sources == setup.sources && x < |setup.sources| && j < |setup.sources| && IsCanonical(setup, k)
    requires rule.IsInterface(x) && !rule.IsInterface(k) && Place(setup, x) == Place(setup, k) != Place(setup, j)
    ensures setup.sources[x] != Place(setup, k) && setup.sources[x] != Place(setup, j)
  {
    if setup.sources[x] == Place(setup, j) { NameOfFile(setup, x, j); }
  }

  // ---------------------------------------------------------------- exactly the safe sources

  ghost predicate SameFaces(rule: Rule, rule': Rule) {
    rule.sources == rule'.sources && rule.interfaces == rule'.interfaces
  }

  lemma LedSame(setup: Setup, rule: Rule, rule': Rule, j: nat)
    requires SameFaces(rule, rule') && Led(setup, rule, j)
    ensures Led(setup, rule', j)
  {
    var m: nat :| Place(setup, m) == Place(setup, j) && Unshadowed(setup, rule, m);
    forall x: nat ensures NotPlainBefore(setup, rule', m, x) { assert NotPlainBefore(setup, rule, m, x); }
    assert Unshadowed(setup, rule', m);
  }

  lemma PairSame(setup: Setup, rule: Rule, rule': Rule, f: string, g: string)
    requires SameFaces(rule, rule') && MaskedPair(setup, rule, f, g)
    ensures MaskedPair(setup, rule', f, g)
  {
    forall y: nat ensures Masked(setup, rule', f, g, y) && Masked(setup, rule', g, f, y) {
      assert Masked(setup, rule, f, g, y) && Masked(setup, rule, g, f, y);
      forall x: nat, other: string | Behind(setup, rule, x, y, other) ensures Behind(setup, rule', x, y, other) {}
    }
  }

  /** Safety depends on the declared sources and the interfaces only. */
  lemma SafeSame(setup: Setup, before: Rule, rule: Rule, before': Rule, rule': Rule, k: nat)
    requires SameFaces(before, before') && SameFaces(rule, rule') && Safe(setup, before, rule, k)
    ensures Safe(setup, before', rule', k)
  {
    if !IsCanonical(setup, k) {
      LedSame(setup, rule, rule', k);
    } else if !rule.IsInterface(k) {
      forall j: nat ensures Heeded(setup, before', rule', k, j) {
        assert Heeded(setup, before, rule, k, j);
        if Led(setup, rule, j) { LedSame(setup, rule, rule', j); }
        if MaskedPair(setup, before', Place(setup, k), Place(setup, j)) {
          PairSame(setup, before', before, Place(setup, k), Place(setup, j));
        }
        if x: nat :| Place(setup, x) == Place(setup, k) && rule.IsInterface(x) {
          assert rule'.IsInterface(x);
        }
      }
    }
  }

  lemma SafeIsNeverMissed(setup: Setup, interfaces: set<string>, k: nat, states: seq<State>, events: Events, i: nat)
    requires var rule := BareRule(setup, interfaces); Safe(setup, rule, rule, k)
    ensures !MissIn(setup, interfaces, k, states, events, i)
  {
    var rule := BareRule(setup, interfaces);
    if MissIn(setup, interfaces, k, states, events, i) {
      forall w: nat, x: nat ensures SafeAt(setup, events, i, k, w, x) {
        if w <= x < i && events[w].Built? && events[x].Built? {
          BuildHasFaces(setup, interfaces, states, events, w);
          BuildHasFaces(setup, interfaces, states, events, x);
          SafeSame(setup, rule, rule, events[w].build.rule, events[x].build.rule, k);
        }
      }
      EveryBuild(setup, states, events, i, k);
    }
  }

  lemma BuildHasFaces(setup: Setup, interfaces: set<string>, states: seq<State>, events: Events, x: nat)
    requires Story(setup, interfaces, states, events) && x < |events| && events[x].Built?
    ensures SameFaces(BareRule(setup, interfaces), events[x].build.rule)
  {
    assert StepAt(setup, states, events, x) && UsesAt(events, interfaces, x);
    SaneBuild(setup, states[x], events[x].build, states[x + 1]);
  }

  /** The file of a canonical source that is not safe is left behind by some story. */
  lemma CanonicalIsLeft(setup: Setup, interfaces: set<string>, k: nat, h: string)
    returns (states: seq<State>, events: Events, i: nat)
    requires Usable(setup, h) && IsCanonical(setup, k)
    requires var rule := BareRule(setup, interfaces); !Safe(setup, rule, rule, k)
    ensures LeftIn(setup, interfaces, k, states, events, i)
  {
    var rule := BareRule(setup, interfaces);
    var j: nat :| !Heeded(setup, rule, rule, k, j);
    if HasInterface(setup, rule, k) {
      i := 3;
      states, events := TwinIsMissed(setup, interfaces, j, k, h);
    } else {
      i := 1;
      states, events := FailureIsMissed(setup, interfaces, j, k, h);
    }
  }

  /** A source that is not safe is missed by some story. */
  lemma OthersAreForgotten(setup: Setup, interfaces: set<string>, k: nat, h: string)
    requires Usable(setup, h) && k < |setup.sources|
    requires var rule := BareRule(setup, interfaces); !Safe(setup, rule, rule, k)
    ensures !NeverMissed(setup, interfaces, k)
  {
    if IsCanonical(setup, k) {
      var states, events, i := CanonicalIsLeft(setup, interfaces, k, h);
      assert MissAt(setup, interfaces, k, states, events, i, k);
    } else {
      var states, events := HeaderIsMissed(setup, interfaces, k, h);
      assert MissAt(setup, interfaces, k, states, events, 2, k);
    }
  }

  /**
   In every history with these interfaces every build compiles source `k` when its object is stale, if and only
   if the source is safe.
   */
  lemma NeverMissedMeansSafe(setup: Setup, interfaces: set<string>, k: nat, h: string)
    requires Usable(setup, h) && k < |setup.sources|
    ensures var rule := BareRule(setup, interfaces); NeverMissed(setup, interfaces, k) <==> Safe(setup, rule, rule, k)
  {
    var rule := BareRule(setup, interfaces);
    if Safe(setup, rule, rule, k) {
      forall states: seq<State>, events: Events, i: nat ensures !MissIn(setup, interfaces, k, states, events, i) {
        SafeIsNeverMissed(setup, interfaces, k, states, events, i);
      }
    } else {
      OthersAreForgotten(setup, interfaces, k, h);
    }
  }

  ghost predicate SafeFile(setup: Setup, rule: Rule, k: nat) {
    exists x: nat :: Place(setup, x) == Place(setup, k) && Safe(setup, rule, rule, x)
  }

  /** No build leaves the stale object of a file behind, if and only if some source of the file is safe. */
  lemma NeverLeftMeansSafe(setup: Setup, interfaces: set<string>, k: nat, h: string)
    requires Usable(setup, h) && k < |setup.sources|
    ensures NeverLeft(setup, interfaces, k) <==> SafeFile(setup, BareRule(setup, interfaces), k)
  {
    var rule := BareRule(setup, interfaces);
    if x: nat :| Place(setup, x) == Place(setup, k) && Safe(setup, rule, rule, x) {
      forall states: seq<State>, events: Events, i: nat ensures !LeftIn(setup, interfaces, k, states, events, i) {
        SafeIsNeverMissed(setup, interfaces, x, states, events, i);
        assert !MissAt(setup, interfaces, k, states, events, i, x);
      }
    } else {
      UnsafeIsLeft(setup, interfaces, k, h);
    }
  }

  lemma UnsafeIsLeft(setup: Setup, interfaces: set<string>, k: nat, h: string)
    requires Usable(setup, h) && k < |setup.sources| && !SafeFile(setup, BareRule(setup, interfaces), k)
    ensures !NeverLeft(setup, interfaces, k)
  {
    var rule := BareRule(setup, interfaces);
    if x: nat :| Place(setup, x) == Place(setup, k) && IsCanonical(setup, x) {
      var states, events, i := CanonicalIsLeft(setup, interfaces, x, h);
      forall y: nat ensures MissAt(setup, interfaces, k, states, events, i, y) {
        assert MissAt(setup, interfaces, x, states, events, i, y);
      }
      assert LeftIn(setup, interfaces, k, states, events, i);
    } else {
      assert !Safe(setup, rule, rule, k);
      var states, events := HeaderIsMissed(setup, interfaces, k, h);
      forall y: nat ensures MissAt(setup, interfaces, k, states, events, 2, y) {
        assert Place(setup, y) == Place(setup, k) ==> !IsCanonical(setup, y);
      }
      assert LeftIn(setup, interfaces, k, states, events, 2);
    }
  }

  /**
   Without interfaces: exactly the canonically spelled sources are never missed, and exactly the files with such a
   source never left behind.
   */
  lemma PlainRuleNeedsCanonical(setup: Setup, k: nat, h: string)
    requires Usable(setup, h) && k < |setup.sources|
    ensures NeverMissed(setup, {}, k) <==> IsCanonical(setup, k)
    ensures NeverLeft(setup, {}, k) <==> exists x: nat :: Place(setup, x) == Place(setup, k) && IsCanonical(setup, x)
  {
    NeverMissedMeansSafe(setup, {}, k, h);
    NeverLeftMeansSafe(setup, {}, k, h);
    forall x: nat ensures PlainSafe(setup, x) { SafeWhenPlain(setup, x); }
    assert PlainSafe(setup, k);
    if x: nat :| Place(setup, x) == Place(setup, k) && IsCanonical(setup, x) { assert PlainSafe(setup, x); }
    if SafeFile(setup, BareRule(setup, {}), k) {
      var x: nat :| Place(setup, x) == Place(setup, k) && Safe(setup, BareRule(setup, {}), BareRule(setup, {}), x);
      assert PlainSafe(setup, x);
    }
  }

  ghost predicate PlainSafe(setup: Setup, x: nat) {
    Safe(setup, BareRule(setup, {}), BareRule(setup, {}), x) <==> IsCanonical(setup, x)
  }

  lemma SafeWhenPlain(setup: Setup, x: nat)
    ensures PlainSafe(setup, x)
  {
    var rule := BareRule(setup, {});
    forall j: nat ensures Heeded(setup, rule, rule, x, j) {}
  }

  // ---------------------------------------------------------------- the plain story

  /** In a rule without interfaces a source spelled otherwise is built, edited, and left stale by the next build. */
  lemma EditIsMissed(setup: Setup, k: nat, h: string) returns (states: seq<State>, events: Events)
    requires Usable(setup, h) && k < |setup.sources| && !IsCanonical(setup, k)
    ensures MissIn(setup, {}, k, states, events, 2) && |events| == 3 && events[1] == Edited(Place(setup, k), 2)
  {
    var f := Place(setup, k);
    var b, s1, s2;
    assert f in Places(setup);
    b, s1, s2, states, events := Opening(setup, {}, NO_HEADERS, h, f);
    EditedIsStale(setup, h, b, s1, f, s2, k);
    EditNamesFile(setup, h, b, s1, s2, k, b, k);
    states, events := EditEnds(setup, {}, h, f, b, s1, s2, states, events);
  }

  /** Without headers the stale records are those of the edited file. */
  lemma OnlyEdited(setup: Setup, h: string, b: Build, s1: State, f: string, s2: State, world: World, vals: Values,
                   x: nat)
    requires Opens(setup, h, b, s1, f, s2) && b.headers == NO_HEADERS && world.files == s2.files
    ensures StaleOnly(setup, Records(s2), OwnersOf(b), f, f, world, vals, x)
  {
    if x < |Records(s1)| {
      StaleIsEdited(setup, h, b, s1, f, s2, world, vals, x);
      WatchesItself(setup, NO_HEADERS, Place(setup, OwnersOf(b)[x].value));
    }
  }

  /** After the edit of a file only its canonical sources are compiled. */
  lemma EditNamesFile(setup: Setup, h: string, b: Build, s1: State, s2: State, e: nat, b': Build, k: nat)
    requires Opens(setup, h, b, s1, Place(setup, e), s2) && b.rule == BareRule(setup, {}) && b.headers == NO_HEADERS
    requires b'.rule == b.rule && e < |setup.sources| && k < |setup.sources| && setup.sources[k] != Place(setup, e)
    ensures Called(setup, s2, b') && !All(Out(setup, s2, b')) && !Chosen(setup, s2, b', k)
  {
    var f, world := Place(setup, e), WorldOf(setup, s2, b');
    AfterOpening(setup, h, b, s1, f, s2);
    forall y: nat ensures Masked(setup, b.rule, f, f, y) {}
    forall x: nat ensures StaleOnly(setup, Records(s2), OwnersOf(b), f, f, world, b'.rule.vals, x) {
      OnlyEdited(setup, h, b, s1, f, s2, world, b'.rule.vals, x);
    }
    var a := EditedIsOnRecord(setup, h, b, s1, f, s2, world, b'.rule.vals, e);
    OthersAreMissed(setup, s2, b', OwnersOf(b), f, f, a, k);
  }

  // ---------------------------------------------------------------- two rules

  /** One source, given by a path that is not canonical. */
  const ODD_SETUP := Setup(["/p/./a.c"], "/c")

  /** A file listed as a plain source and then, spelled otherwise, as an interface, and an importer. */
  const TWO_FACES := Setup(["/p/a.cpp", "/p/./a.cpp", "/p/b.cpp"], "/c")
  const FACES := {"/p/./a.cpp"}

  lemma OneName(n: string)
    requires PathAlgebra.Piece(n)
    ensures Segs(n) == [n] && Segs("/" + n) == [n]
  {
    SegsOfPiece(n, "");
    assert n + "" == n;
    SegsOfSlash(n);
  }

  /** A file in directory /p, with or without a detour. */
  lemma InP(n: string)
    requires Name(n)
    ensures Meaning("/p/" + n, "/c") == ["p", n] && Meaning("/p/./" + n, "/c") == ["p", n]
  {
    OneName("p");
    OneName(".");
    OneName(n);
    SegsAround("/" + "p", n);
    SegsAround(".", n);
    SegsAround("/" + "p", "." + "/" + n);
    assert "/" + "p" + "/" + n == "/p/" + n && "/" + "p" + "/" + ("." + "/" + n) == "/p/./" + n;
    assert ["p"] + [n] == ["p", n] && ["p"] + (["."] + [n]) == ["p", ".", n];
    TwoNames(n);
  }

  lemma TwoNames(n: string)
    requires Name(n)
    ensures Resolve([], ["p", n]) == ["p", n] && Resolve([], ["p", ".", n]) == ["p", n]
  {
    assert ["p", n][1..] == [n] && [n][1..] == [] && ["p", ".", n][1..] == [".", n] && [".", n][1..] == [n];
    ResolveNames([], ["p", n]);
    ResolveNames(["p"], [n]);
    assert [] + ["p", n] == ["p", n] && ["p"] + [n] == ["p", n] && [] + ["p"] == ["p"];
    assert PathAlgebra.Step([], "p") == ["p"] && PathAlgebra.Step(["p"], ".") == ["p"];
    assert Resolve(["p"], [".", n]) == Resolve(["p"], [n]);
  }

  lemma CacheMeans()
    ensures Meaning("/c", "/c") == ["c"] && Normal("/c", "/c") == "/c"
  {
    OneName("c");
    assert "/" + "c" == "/c";
    ResolvedOne("c");
  }

  lemma ResolvedOne(n: string)
    requires Name(n)
    ensures Resolve([], [n]) == [n] && Render([n]) == "/" + n
  {
    assert [n][1..] == [];
    assert Cat([n]) == "/" + n + "";
    assert Resolve([n], []) == [n];
    assert [] + [n] == [n];
  }

  lemma PlaceInP(n: string)
    requires Name(n)
    ensures Render(["p", n]) == "/p/" + n && Relative(["c"], ["p", n]) == "../p/" + n
  {
    assert ["p", n][1..] == [n] && [n][1..] == [];
    ResolvedOne(n);
    assert Cat(["p", n]) == "/" + "p" + Cat([n]);
    assert Common(["c"], ["p", n]) == 0;
    assert Ups(1) + ["p", n][0..] == ["..", "p", n] && ["..", "p", n][1..] == ["p", n];
    assert Join(["p", n]) == "p" + "/" + n;
    assert Join(["..", "p", n]) == ".." + "/" + Join(["p", n]);
  }

  /** Such sources fit, and are recorded as ../p/n. */
  lemma SourceInP(setup: Setup, k: nat, n: string)
    requires setup.cacheDir == "/c" && k < |setup.sources| && Name(n) && |n| < 100 && Clear(n)
    requires setup.sources[k] == "/p/" + n || setup.sources[k] == "/p/./" + n
    ensures Place(setup, k) == "/p/" + n && FitsAt(BareRule(setup, {}), k) && RecordablePlace(setup, k)
  {
    InP(n);
    PlaceInP(n);
    CacheMeans();
    Paths.FoundIsMeaning(setup.sources[k], "/c");
    Paths.FoundIsMeaning("/p/" + n, "/c");
    Paths.FoundIsMeaning("/c", "/c");
    assert BareRule(setup, {}).CachePath(k) == "../p/" + n;
  }

  lemma HeaderElsewhere()
    ensures Canonical("/h", "/c") == Some("/h") && RecordablePath("/h") && Lacks("/h", SEP)
  {
    OneName("h");
    assert "/" + "h" == "/h";
    ResolvedOne("h");
    Paths.FoundIsMeaning("/h", "/c");
  }

  lemma OddUsable()
    ensures Usable(ODD_SETUP, "/h") && Place(ODD_SETUP, 0) == "/p/a.c"
  {
    OddSane();
    OddPlace();
    HeaderElsewhere();
    forall k: nat ensures RecordablePlace(ODD_SETUP, k) && ElsewhereThan(ODD_SETUP, "/h", k) { OddOnly(k); }
  }

  lemma OddPlace()
    ensures Place(ODD_SETUP, 0) == "/p/a.c"
  {
    PlaceIs(ODD_SETUP, 0, "a.c", "/p/a.c");
  }

  lemma OddOnly(k: nat)
    ensures FitsAt(BareRule(ODD_SETUP, {}), k) && RecordablePlace(ODD_SETUP, k) && ElsewhereThan(ODD_SETUP, "/h", k)
  {
    if k == 0 { SourceInP(ODD_SETUP, 0, "a.c"); }
  }

  lemma OddSane()
    ensures Sane(ODD_SETUP, BareRule(ODD_SETUP, {}))
  {
    CacheMeans();
    forall k: nat ensures FitsAt(BareRule(ODD_SETUP, {}), k) { OddOnly(k); }
  }

  /** Build, edit /p/a.c, build: the source /p/./a.c is left stale. */
  lemma OddSpellingIsMissed() returns (states: seq<State>, events: Events)
    ensures MissIn(ODD_SETUP, {}, 0, states, events, 2) && |events| == 3 && events[1] == Edited("/p/a.c", 2)
    ensures !NeverMissed(ODD_SETUP, {}, 0)
  {
    OddUsable();
    states, events := EditIsMissed(ODD_SETUP, 0, "/h");
  }

  /** A plain source listed first shadows all interfaces of its file. */
  lemma NotLed(setup: Setup, rule: Rule, j: nat, x: nat)
    requires x == 0 && Place(setup, x) == Place(setup, j) && !rule.IsInterface(x)
    ensures !Led(setup, rule, j)
  {
    forall m: nat | Place(setup, m) == Place(setup, j) ensures !Unshadowed(setup, rule, m) {
      if m > 0 { assert !NotPlainBefore(setup, rule, m, x); }
    }
  }

  lemma FacesUsable()
    ensures Usable(TWO_FACES, "/h")
  {
    FacesSane();
    HeaderElsewhere();
    forall k: nat ensures RecordablePlace(TWO_FACES, k) && ElsewhereThan(TWO_FACES, "/h", k) { AnyOfThree(k); }
  }

  lemma FacesPlaces()
    ensures Place(TWO_FACES, 0) == "/p/a.cpp" && Place(TWO_FACES, 1) == "/p/a.cpp" && Place(TWO_FACES, 2) == "/p/b.cpp"
  {
    PlainFace();
    OtherFace();
    Importer();
  }

  lemma PlainFace()
    ensures Place(TWO_FACES, 0) == "/p/a.cpp"
  {
    PlaceIs(TWO_FACES, 0, "a.cpp", "/p/a.cpp");
  }

  lemma OtherFace()
    ensures Place(TWO_FACES, 1) == "/p/a.cpp"
  {
    PlaceIs(TWO_FACES, 1, "a.cpp", "/p/a.cpp");
  }

  lemma Importer()
    ensures Place(TWO_FACES, 2) == "/p/b.cpp"
  {
    PlaceIs(TWO_FACES, 2, "b.cpp", "/p/b.cpp");
  }

  lemma PlaceIs(setup: Setup, k: nat, n: string, place: string)
    requires setup.cacheDir == "/c" && k < |setup.sources| && Name(n) && place == "/p/" + n
    requires setup.sources[k] == place || setup.sources[k] == "/p/./" + n
    ensures Place(setup, k) == place
  {
    InP(n);
    PlaceInP(n);
  }

  lemma FacesSane()
    ensures Sane(TWO_FACES, BareRule(TWO_FACES, {}))
  {
    CacheMeans();
    forall k: nat ensures FitsAt(BareRule(TWO_FACES, {}), k) { AnyOfThree(k); }
  }

  lemma AnyOfThree(k: nat)
    ensures FitsAt(BareRule(TWO_FACES, {}), k) && RecordablePlace(TWO_FACES, k) && ElsewhereThan(TWO_FACES, "/h", k)
  {
    if k == 0 {
      SourceInP(TWO_FACES, 0, "a.cpp");
    } else if k == 1 {
      SourceInP(TWO_FACES, 1, "a.cpp");
    } else if k == 2 {
      SourceInP(TWO_FACES, 2, "b.cpp");
    }
  }

  /**
   The canonical importer /p/b.cpp is forgotten when the interface, listed a second time under another name,
   fails.
   */
  lemma ImporterIsMissed() returns (states: seq<State>, events: Events)
    ensures IsCanonical(TWO_FACES, 2) && MissIn(TWO_FACES, FACES, 2, states, events, 1)
  {
    FacesUsable();
    FacesPlaces();
    var rule := BareRule(TWO_FACES, FACES);
    assert rule.IsInterface(1) && !rule.IsInterface(0) && !rule.IsInterface(2);
    NotLed(TWO_FACES, rule, 1, 0);
    assert !HasInterface(TWO_FACES, rule, 2);
    states, events := FailureIsMissed(TWO_FACES, FACES, 1, 2, "/h");
    assert MissAt(TWO_FACES, FACES, 2, states, events, 1, 2);
  }

  /** Two files, each listed as a plain source and, spelled otherwise, as an interface. */
  const TWINS := Setup(["/p/a.cpp", "/p/./a.cpp", "/p/./b.cpp", "/p/b.cpp"], "/c")
  const TWIN_FACES := {"/p/./a.cpp", "/p/b.cpp"}

  const TWIN_A := "/p/a.cpp"
  const TWIN_B := "/p/b.cpp"

  lemma TwinPlace(k: nat)
    requires k < 4
    ensures Place(TWINS, k) == if k < 2 then TWIN_A else TWIN_B
  {
    if k < 2 {
      PlaceIs(TWINS, k, "a.cpp", TWIN_A);
    } else {
      PlaceIs(TWINS, k, "b.cpp", TWIN_B);
    }
  }

  lemma TwinFits(k: nat)
    ensures FitsAt(BareRule(TWINS, {}), k) && RecordablePlace(TWINS, k) && ElsewhereThan(TWINS, "/h", k)
  {
    if k == 0 || k == 1 {
      SourceInP(TWINS, k, "a.cpp");
    } else if k == 2 || k == 3 {
      SourceInP(TWINS, k, "b.cpp");
    }
  }

  lemma TwinsUsable()
    ensures Usable(TWINS, "/h")
  {
    CacheMeans();
    HeaderElsewhere();
    forall k: nat ensures FitsAt(BareRule(TWINS, {}), k) { TwinFits(k); }
    forall k: nat ensures RecordablePlace(TWINS, k) && ElsewhereThan(TWINS, "/h", k) { TwinFits(k); }
  }

  /** Both files are listed as a plain source first and as an interface right behind it. */
  ghost predicate TwoTwins(setup: Setup, rule: Rule) {
    && |setup.sources| == 4 && rule.sources == setup.sources
    && Place(setup, 0) == Place(setup, 1) && Place(setup, 2) == Place(setup, 3) && Place(setup, 0) != Place(setup, 3)
    && !rule.IsInterface(0) && rule.IsInterface(1) && !rule.IsInterface(2) && rule.IsInterface(3)
  }

  lemma TwinsAreMasked(setup: Setup, rule: Rule)
    requires TwoTwins(setup, rule)
    ensures MaskedPair(setup, rule, Place(setup, 0), Place(setup, 3)) && !Led(setup, rule, 3)
  {
    var f, g := Place(setup, 0), Place(setup, 3);
    assert Behind(setup, rule, 0, 1, g) && Behind(setup, rule, 2, 3, f);
    forall y: nat ensures Masked(setup, rule, f, g, y) && Masked(setup, rule, g, f, y) {}
    forall m: nat | Place(setup, m) == g ensures !Unshadowed(setup, rule, m) {
      if m == 3 { assert !NotPlainBefore(setup, rule, m, 2); }
    }
  }

  lemma TheseFaces()
    ensures var rule := BareRule(TWINS, TWIN_FACES);
            !rule.IsInterface(0) && rule.IsInterface(1) && !rule.IsInterface(2) && rule.IsInterface(3)
  {
  }

  lemma TwinNames()
    ensures TWIN_A != TWIN_B && TWINS.sources[0] == TWIN_A && TWINS.sources[3] == TWIN_B && |TWINS.sources| == 4
  {
    assert TWIN_A[3] != TWIN_B[3];
  }

  lemma TheseAreTwins()
    ensures TwoTwins(TWINS, BareRule(TWINS, TWIN_FACES)) && IsCanonical(TWINS, 0) && IsCanonical(TWINS, 3)
  {
    TwinPlace(0);
    TwinPlace(1);
    TwinPlace(2);
    TwinPlace(3);
    TheseFaces();
    TwinNames();
  }

  /**
   The canonical source /p/a.cpp, skipped when interface /p/b.cpp fails after a change of their header, is
   forgotten.
   */
  lemma MaskedTwinIsMissed() returns (states: seq<State>, events: Events)
    ensures LeftIn(TWINS, TWIN_FACES, 0, states, events, 3)
  {
    TwinsUsable();
    TheseAreTwins();
    TwinsAreMasked(TWINS, BareRule(TWINS, TWIN_FACES));
    states, events := TwinIsMissed(TWINS, TWIN_FACES, 3, 0, "/h");
  }
}
