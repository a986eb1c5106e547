/**
 A build for a target when no target is on record: the rule runs, and which objects it compiles for the
 target depends on what else is outdated.
 */
module TargetSwitch {
  import opened Options
  import opened PathAlgebra
  import opened DepsFormat
  import opened DepsFile
  import opened NodeResolve
  import opened CompileLoop
  import opened CcRule
  import opened Incremental
  import opened Rebuilds
  import opened MissedSource
  import Paths

  // ---------------------------------------------------------------- what is compiled for the target

  /** Record `i` is a stale source record of the file of `k`. */
  ghost predicate NamedAt(setup: Setup, s: State, b: Build, k: nat, i: nat) {
    && i < |Records(s)| && Stale(Records(s)[i], WorldOf(setup, s, b), b.rule.vals)
    && Records(s)[i].flags == 's' && Records(s)[i].resource == Some(Place(setup, k))
  }

  ghost predicate Named(setup: Setup, s: State, b: Build, k: nat) {
    IsCanonical(setup, k) && exists i: nat :: NamedAt(setup, s, b, k, i)
  }

  ghost predicate NewTarget(setup: Setup, s: State, b: Build) {
    Inv(setup, s) && Sane(setup, b.rule) && b.target.Some? && !TargetSeen(Records(s))
  }

  /**
   Without a target on record the rule runs. A source is compiled if and only if nothing is outdated, or something
   that is no source, or the source is canonical and outdated itself.
   */
  lemma NewTargetSelects(setup: Setup, s: State, b: Build, k: nat)
    requires NewTarget(setup, s, b) && k < |setup.sources|
    ensures Called(setup, s, b)
    ensures Chosen(setup, s, b, k) <==> All(Out(setup, s, b)) || Named(setup, s, b, k)
  {
    if Chosen(setup, s, b, k) && !All(Out(setup, s, b)) {
      var i := NamedBySource(setup, s, b, k);
      assert NamedAt(setup, s, b, k, i);
    }
    if IsCanonical(setup, k) && exists i: nat :: NamedAt(setup, s, b, k, i) {
      var i: nat :| NamedAt(setup, s, b, k, i);
      StaleIsReported(Records(s), None, WorldOf(setup, s, b), b.rule.vals, i);
    }
  }

  /** Everything is compiled if and only if that list is empty or holds another record, or names every source. */
  lemma NewTargetSelectsAll(setup: Setup, s: State, b: Build)
    requires NewTarget(setup, s, b)
    ensures (forall k: nat | k < |setup.sources| :: Chosen(setup, s, b, k))
            <==> All(Out(setup, s, b)) || forall k: nat | k < |setup.sources| :: Named(setup, s, b, k)
  {
    forall k: nat | k < |setup.sources|
      ensures Chosen(setup, s, b, k) <==> All(Out(setup, s, b)) || Named(setup, s, b, k)
    {
      NewTargetSelects(setup, s, b, k);
    }
  }

  ghost predicate FileNamed(setup: Setup, s: State, b: Build, place: string) {
    exists k: nat :: Place(setup, k) == place && Named(setup, s, b, k)
  }

  /**
   When nothing fails, an object is compiled for the target under exactly that condition on its file, and the others
   stay as they were compiled before.
   */
  lemma NewTargetRebuilds(setup: Setup, s: State, b: Build, s': State, k: nat)
    requires NewTarget(setup, s, b) && k < |setup.sources| && BuildStep(setup, s, b, s')
    requires forall j: nat :: !Bad(b.cc, j)
    ensures FileAttempted(setup, s, b, Place(setup, k)) <==>
              All(Out(setup, s, b)) || FileNamed(setup, s, b, Place(setup, k))
    ensures !FileAttempted(setup, s, b, Place(setup, k)) && Place(setup, k) in s.built ==>
              Place(setup, k) in s'.built && s'.built[Place(setup, k)] == s.built[Place(setup, k)]
  {
    var place := Place(setup, k);
    forall x: nat ensures ChosenMeans(setup, s, b, x) { ChosenIsNamed(setup, s, b, x); }
    if x: nat :| Place(setup, x) == place && Attempted(b.rule, Out(setup, s, b), b.cc, x) {
      assert ChosenMeans(setup, s, b, x);
    }
    if All(Out(setup, s, b)) {
      assert ChosenMeans(setup, s, b, k);
    } else if x: nat :| Place(setup, x) == place && Named(setup, s, b, x) {
      assert ChosenMeans(setup, s, b, x);
    }
    NewTargetSelects(setup, s, b, k);
    assert Rebuilt(setup, s, b, s', place) && !FileBroken(setup, s, b, place);
  }

  ghost predicate ChosenMeans(setup: Setup, s: State, b: Build, x: nat) {
    Attempted(b.rule, Out(setup, s, b), b.cc, x) <==>
      x < |setup.sources| && (All(Out(setup, s, b)) || Named(setup, s, b, x))
  }

  lemma ChosenIsNamed(setup: Setup, s: State, b: Build, x: nat)
    requires NewTarget(setup, s, b) && forall j: nat :: !Bad(b.cc, j)
    ensures ChosenMeans(setup, s, b, x)
  {
    if x < |setup.sources| { NewTargetSelects(setup, s, b, x); }
  }

  // ---------------------------------------------------------------- a target that is applied by half

  predicate RecordableTarget(t: string) {
    |t| < 8192 && Clear(t) && Lacks(t, NL_MARK)
  }

  function TargetBuild(setup: Setup, t: string): Build {
    BuildOf(setup, {}, GOOD, NO_HEADERS, {}).(target := Some(t), sysEnv := map[AUTARK_TARGET := t])
  }

  function TargetEntry(t: string): Entry {
    Entry(SYS_ENV, NUL, t, AUTARK_TARGET, 0)
  }

  lemma TargetRecord(setup: Setup, t: string, world: World)
    requires RecordableTarget(t)
    ensures StampOf(TargetEntry(t), world) == Some(Record(SYS_ENV, ' ', Some(AUTARK_TARGET), Some(t), 0))
    ensures Storable(Record(SYS_ENV, ' ', Some(AUTARK_TARGET), Some(t), 0))
  {
    KeyIsClean();
    TargetFits(Record(SYS_ENV, ' ', Some(AUTARK_TARGET), Some(t), 0));
  }

  lemma KeyIsClean()
    ensures |AUTARK_TARGET| == 13 && Clear(AUTARK_TARGET) && Lacks(AUTARK_TARGET, SEP) && Lacks(AUTARK_TARGET, NL_MARK)
  {
  }

  lemma TargetFits(rec: Record)
    requires rec.kind == SYS_ENV && rec.flags == ' ' && rec.serial == 0 && rec.alias.Some? && rec.resource.Some?
    requires RecordableTarget(rec.resource.value) && RecordableTarget(rec.alias.value) && Lacks(rec.alias.value, SEP)
    ensures Storable(rec)
  {
    assert |Print(0)| == 1;
  }

  lemma TargetEntries(setup: Setup, t: string)
    ensures var b := TargetBuild(setup, t);
            && Heading(b.rule) == [] && Trailing(b) == [TargetEntry(t)]
            && EntriesOf(b) == Flatten(|b.rule.sources|, BlockOf(b)) + [TargetEntry(t)]
  {
    OnlyTarget(TargetBuild(setup, t), t);
  }

  lemma OnlyTarget(b: Build, t: string)
    requires b.rule.unitFiles == [] && b.rule.vals == [] && b.rule.consumes == [] && b.rule.moduleFiles == []
    requires b.target == Some(t) && b.toolchain == None
    ensures Heading(b.rule) == [] && Trailing(b) == [TargetEntry(t)]
    ensures EntriesOf(b) == Flatten(|b.rule.sources|, BlockOf(b)) + [TargetEntry(t)]
  {
    TargetParts(b, t);
    EntriesInThree(b);
    EmptyFront(Flatten(|b.rule.sources|, BlockOf(b)));
  }

  lemma EmptyFront(es: seq<Entry>)
    ensures [] + es == es
  {
  }

  lemma TargetParts(b: Build, t: string)
    requires b.rule.unitFiles == [] && b.rule.vals == [] && b.rule.consumes == [] && b.rule.moduleFiles == []
    requires b.target == Some(t) && b.toolchain == None
    ensures Heading(b.rule) == [] && Trailing(b) == [TargetEntry(t)]
  {
    assert ToolchainEntries(b.target, b.toolchain) == [TargetEntry(t)];
    assert FileEntries(b.rule.moduleFiles) == [];
  }

  lemma TargetStorable(setup: Setup, s: State, h: string, t: string)
    requires Usable(setup, h) && Early(setup, s, h) && RecordableTarget(t)
    ensures var b := TargetBuild(setup, t);
            Sane(setup, b.rule) && forall i: nat :: StorableAt(EntriesOf(b), WorldOf(setup, s, b), i)
  {
    var b := TargetBuild(setup, t);
    var es, world := EntriesOf(b), WorldOf(setup, s, b);
    SaneAnyInterfaces(setup, {});
    TargetEntries(setup, t);
    TargetRecord(setup, t, world);
    forall i: nat ensures StorableAt(es, world, i) {
      if i < |es| - 1 {
        var q := OfFlatten(|b.rule.sources|, BlockOf(b), es[i]);
        assert OnlyHeader(NO_HEADERS, h, Place(setup, q));
        EntryStorable(setup, s, b, h, q, es[i]);
      }
    }
  }

  lemma TargetStep(setup: Setup, s: State, h: string, t: string)
    requires Usable(setup, h) && Early(setup, s, h) && RecordableTarget(t) && s.lists == NO_HEADERS
    requires Called(setup, s, TargetBuild(setup, t))
    ensures BuildStep(setup, s, TargetBuild(setup, t), Next(setup, s, TargetBuild(setup, t)))
  {
    var b := TargetBuild(setup, t);
    TargetStorable(setup, s, h, t);
    GoodMarks(b.rule, Out(setup, s, b));
    forall p: string ensures LeavesAlone(setup, s, b, p) {}
    StepExists(setup, s, b);
  }

  /** The last record is that of the target. */
  lemma LastIsTarget(setup: Setup, s: State, t: string, s': State)
    requires RecordableTarget(t) && Called(setup, s, TargetBuild(setup, t))
    requires BuildStep(setup, s, TargetBuild(setup, t), s')
    ensures |Records(s')| == |EntriesOf(TargetBuild(setup, t))| > 0
    ensures var r := Records(s')[|Records(s')| - 1];
            r.kind == SYS_ENV && r.alias == Some(AUTARK_TARGET)
            && !Stale(r, WorldOf(setup, s', TargetBuild(setup, t)), [])
  {
    var b := TargetBuild(setup, t);
    var es, recs, world := EntriesOf(b), Records(s'), WorldOf(setup, s, b);
    Reads(setup, s, b, s');
    TargetEntries(setup, t);
    TargetRecord(setup, t, world);
    var last := |es| - 1;
    assert ReadAt(es, world, recs, last) && es[last] == TargetEntry(t);
    TargetHolds(t, WorldOf(setup, s', b), recs[last].serial);
  }

  lemma TargetHolds(t: string, world: World, serial: int)
    requires world.sysEnv == map[AUTARK_TARGET := t]
    ensures !Stale(Record(SYS_ENV, ' ', Some(AUTARK_TARGET), Some(t), serial), world, [])
  {
  }

  lemma SourceNotStale(setup: Setup, s: State, h: string, t: string, s': State, x: nat)
    requires Usable(setup, h) && Early(setup, s, h) && Called(setup, s, TargetBuild(setup, t))
    requires BuildStep(setup, s, TargetBuild(setup, t), s')
    requires x < |EntriesOf(TargetBuild(setup, t))| - 1 && x < |Records(s')|
    ensures !Stale(Records(s')[x], WorldOf(setup, s', TargetBuild(setup, t)), [])
  {
    var b := TargetBuild(setup, t);
    BuildLeaves(setup, s, b, s');
    TargetEntries(setup, t);
    NumbersFit(|b.rule.sources|, BlockOf(b));
    assert OwnedAt(setup, s, b, FailedSources(b), Records(s'), OwnersOf(b), x);
    NoneFailed(b);
    var q := OwnersOf(b)[x].value;
    assert OnlyHeader(b.headers, h, Place(setup, q));
    FreshRecord(setup, h, s, b, Records(s')[x], q);
    StaleByTime(Records(s')[x], WorldOf(setup, s', b), []);
  }

  ghost predicate NotChosenAt(setup: Setup, s: State, b: Build, place: string, x: nat) {
    x < |setup.sources| && Place(setup, x) == place ==> !Chosen(setup, s, b, x)
  }

  /**
   A native build, an edit of one file, and a build for a target: the rule runs, records the target, and leaves the
   object of every other file as it was compiled before; the next build for the target finds nothing to do.
   */
  lemma TargetIsHalfApplied(setup: Setup, h: string, e: nat, k: nat, t: string)
    returns (states: seq<State>, events: Events)
    requires Usable(setup, h) && e < |setup.sources| && k < |setup.sources| && Place(setup, e) != Place(setup, k)
    requires RecordableTarget(t)
    ensures Story(setup, {}, states, events) && |events| == 3 && events[1] == Edited(Place(setup, e), 2)
    ensures events[0] == Built(BuildOf(setup, {}, GOOD, NO_HEADERS, {})) && events[2] == Built(TargetBuild(setup, t))
    ensures Called(setup, states[2], TargetBuild(setup, t)) && !Called(setup, states[3], TargetBuild(setup, t))
    ensures forall x: nat :: NotChosenAt(setup, states[2], TargetBuild(setup, t), Place(setup, k), x)
  {
    var s2;
    s2, states, events := NativeThenEdit(setup, h, e, k, TargetBuild(setup, t));
    states, events := TargetEnds(setup, h, t, s2, states, events);
  }

  /** The first two events, and what build `b` would choose then. */
  lemma NativeThenEdit(setup: Setup, h: string, e: nat, k: nat, b: Build)
    returns (s2: State, states: seq<State>, events: Events)
    requires Usable(setup, h) && e < |setup.sources| && k < |setup.sources| && Place(setup, e) != Place(setup, k)
    requires b.rule == BareRule(setup, {})
    ensures Story(setup, {}, states, events) && |states| == 3 && states[2] == s2
    ensures events == [Built(BuildOf(setup, {}, GOOD, NO_HEADERS, {})), Edited(Place(setup, e), 2)]
    ensures Early(setup, s2, h) && s2.lists == NO_HEADERS && Called(setup, s2, b)
    ensures forall x: nat :: NotChosenAt(setup, s2, b, Place(setup, k), x)
  {
    var b0, s1;
    assert Place(setup, e) in Places(setup);
    b0, s1, s2, states, events := Opening(setup, {}, NO_HEADERS, h, Place(setup, e));
    AfterOpening(setup, h, b0, s1, Place(setup, e), s2);
    OthersNotChosen(setup, h, b0, s1, s2, e, k, b);
  }

  lemma TargetEnds(setup: Setup, h: string, t: string, s: State, states: seq<State>, events: Events)
    returns (states': seq<State>, events': Events)
    requires Usable(setup, h) && Early(setup, s, h) && RecordableTarget(t) && s.lists == NO_HEADERS && |events| == 2
    requires Story(setup, {}, states, events) && s == states[|events|] && Called(setup, s, TargetBuild(setup, t))
    ensures Story(setup, {}, states', events') && events' == events + [Built(TargetBuild(setup, t))]
    ensures states'[2] == s && !Called(setup, states'[3], TargetBuild(setup, t))
  {
    var b := TargetBuild(setup, t);
    TargetStep(setup, s, h, t);
    var s' := Next(setup, s, b);
    SecondIsQuiet(setup, s, h, t, s');
    StoryGoesOn(setup, {}, states, events, Built(b), s');
    states', events' := states + [s'], events + [Built(b)];
  }

  lemma OthersNotChosen(setup: Setup, h: string, b0: Build, s1: State, s2: State, e: nat, k: nat, b: Build)
    requires Opens(setup, h, b0, s1, Place(setup, e), s2) && b0.rule == BareRule(setup, {}) && b0.headers == NO_HEADERS
    requires b.rule == b0.rule && e < |setup.sources| && k < |setup.sources| && Place(setup, e) != Place(setup, k)
    ensures Called(setup, s2, b) && forall x: nat :: NotChosenAt(setup, s2, b, Place(setup, k), x)
  {
    OtherNotChosen(setup, h, b0, s1, s2, e, k, b);
    forall x: nat ensures NotChosenAt(setup, s2, b, Place(setup, k), x) {
      if x < |setup.sources| && Place(setup, x) == Place(setup, k) {
        OtherNotChosen(setup, h, b0, s1, s2, e, x, b);
      }
    }
  }

  lemma OtherNotChosen(setup: Setup, h: string, b0: Build, s1: State, s2: State, e: nat, x: nat, b: Build)
    requires Opens(setup, h, b0, s1, Place(setup, e), s2) && b0.rule == BareRule(setup, {}) && b0.headers == NO_HEADERS
    requires b.rule == b0.rule && e < |setup.sources| && x < |setup.sources| && Place(setup, e) != Place(setup, x)
    ensures Called(setup, s2, b) && !Chosen(setup, s2, b, x)
  {
    if setup.sources[x] == Place(setup, e) { NameOfFile(setup, x, e); }
    EditNamesFile(setup, h, b0, s1, s2, e, b, x);
  }

  lemma SecondIsQuiet(setup: Setup, s2: State, h: string, t: string, s3: State)
    requires Usable(setup, h) && Early(setup, s2, h) && RecordableTarget(t) && Called(setup, s2, TargetBuild(setup, t))
    requires BuildStep(setup, s2, TargetBuild(setup, t), s3)
    ensures !Called(setup, s3, TargetBuild(setup, t))
  {
    var recs, world := Records(s3), WorldOf(setup, s3, TargetBuild(setup, t));
    var last := |recs| - 1;
    LastIsTarget(setup, s2, t, s3);
    assert TargetSeen(recs);
    forall x: nat ensures FreshAt(recs, world, x) {
      if x < last { SourceNotStale(setup, s2, h, t, s3, x); }
    }
    NoneStale(recs, world);
  }

  ghost predicate FreshAt(recs: seq<Record>, world: World, x: nat) {
    x < |recs| - 1 ==> !Stale(recs[x], world, [])
  }

  lemma NoneStale(recs: seq<Record>, world: World)
    requires recs != [] && !Stale(recs[|recs| - 1], world, []) && forall x: nat :: FreshAt(recs, world, x)
    ensures !AnyStale(recs, world, [])
  {
    forall x | 0 <= x < |recs| ensures !Stale(recs[x], world, []) { assert FreshAt(recs, world, x); }
  }
}
