/**
 Deciding whether a rule must run again: node_resolve in script.c and deps_cur_is_outdated in deps.c.
 */
module NodeResolve {
  import opened Options
  import opened DepsFormat
  import opened DepsFile

  const AUTARK_TARGET := "AUTARK_TARGET"
  const AUTARK_TOOLCHAIN := "AUTARK_TOOLCHAIN"

  type Values = seq<Option<string>>

  function Known(env: map<string, string>, key: string): string {
    if key in env then env[key] else ""
  }

  /** deps_cur_is_outdated, with the node values the resolver compares itself. */
  predicate Stale(rec: Record, world: World, vals: Values) {
    var res, al := Text(rec.resource), Text(rec.alias);
    if rec.kind == NODE_VALUE then !(0 <= rec.serial < |vals| && vals[rec.serial] == Some(res))
    else if rec.kind == FILE then res !in world.files || world.files[res] > rec.serial
    else if rec.kind == ALIAS then al !in world.files || world.files[al] > rec.serial
    else if rec.kind == ENV then Known(world.env, al) != res
    else if rec.kind == SYS_ENV then Known(world.sysEnv, al) != res
    else if rec.kind == FILE_NOT_EXISTS then res in world.files
    else rec.kind == OUTDATED
  }

  datatype Outdated = Outdated(kind: char, flags: char, path: string)

  /** The list of outdated dependencies: repeats of the resource reported last are skipped. */
  function Reported(recs: seq<Record>, last: Option<string>, world: World, vals: Values): seq<Outdated> {
    if recs == [] then []
    else
      var rec := recs[0];
      if last != None && last == rec.resource then Reported(recs[1..], last, world, vals)
      else if Stale(rec, world, vals) then
        [Outdated(rec.kind, rec.flags, Text(rec.resource))] + Reported(recs[1..], Some(Text(rec.resource)), world, vals)
      else Reported(recs[1..], last, world, vals)
  }

  predicate TargetSeen(recs: seq<Record>) {
    exists i :: 0 <= i < |recs| && recs[i].kind == SYS_ENV && recs[i].alias == Some(AUTARK_TARGET)
  }

  predicate AnyStale(recs: seq<Record>, world: World, vals: Values) {
    exists i :: 0 <= i < |recs| && Stale(recs[i], world, vals)
  }

  // ---------------------------------------------------------------- skipping loses nothing

  predicate Names(out: seq<Outdated>, path: string) {
    exists j :: 0 <= j < |out| && out[j].path == path
  }

  /** Everything reported is stale, as recorded. */
  lemma {:induction false} ReportedIsStale(recs: seq<Record>, last: Option<string>, world: World, vals: Values,
                                           o: Outdated)
    requires o in Reported(recs, last, world, vals)
    ensures exists i ::
              0 <= i < |recs| && Stale(recs[i], world, vals)
              && o == Outdated(recs[i].kind, recs[i].flags, Text(recs[i].resource))
  {
    var rec, rest := recs[0], recs[1..];
    var next := if !(last != None && last == rec.resource)
    && Stale(rec, world, vals) then Some(Text(rec.resource)) else last;
    if o in Reported(rest, next, world, vals) {
      ReportedIsStale(rest, next, world, vals, o);
      var i :| 0 <= i < |rest| && Stale(rest[i], world, vals)
      && o == Outdated(rest[i].kind, rest[i].flags, Text(rest[i].resource));
      assert recs[i + 1] == rest[i];
    }
  }

  /** Every stale resource is reported, here or as the last one before. */
  lemma {:induction false} StaleIsReported(recs: seq<Record>, last: Option<string>, world: World, vals: Values, i: nat)
    requires i < |recs| && Stale(recs[i], world, vals)
    ensures recs[i].resource == last || Names(Reported(recs, last, world, vals), Text(recs[i].resource))
  {
    var rec, rest := recs[0], recs[1..];
    var out := Reported(recs, last, world, vals);
    var pushes := !(last != None && last == rec.resource) && Stale(rec, world, vals);
    var next := if pushes then Some(Text(rec.resource)) else last;
    var more := Reported(rest, next, world, vals);
    if i == 0 {
      if pushes { assert out[0].path == Text(rec.resource); }
    } else {
      StaleIsReported(rest, next, world, vals, i - 1);
      if Names(more, Text(recs[i].resource)) {
        var j :| 0 <= j < |more| && more[j].path == Text(recs[i].resource);
        assert out[if pushes then j + 1 else j] == more[j];
      } else if pushes {
        assert out[0].path == Text(rec.resource);
      }
    }
  }

  /** Something is reported exactly when something is stale. */
  lemma {:induction false} SkippingKeepsDecision(recs: seq<Record>, world: World, vals: Values)
    ensures Reported(recs, None, world, vals) != [] <==> AnyStale(recs, world, vals)
  {
    var out := Reported(recs, None, world, vals);
    if out != [] {
      ReportedIsStale(recs, None, world, vals, out[0]);
    }
    if i :| 0 <= i < |recs| && Stale(recs[i], world, vals) {
      StaleOrNone(recs, world, vals, i);
    }
  }

  /** A stale record without a resource is reported too. */
  lemma {:induction false} StaleOrNone(recs: seq<Record>, world: World, vals: Values, i: nat)
    requires i < |recs| && Stale(recs[i], world, vals)
    ensures Reported(recs, None, world, vals) != []
  {
    if i > 0 && !Stale(recs[0], world, vals) {
      StaleOrNone(recs[1..], world, vals, i - 1);
    }
  }

  /** The reported paths are the resources of the stale records. */
  lemma ReportedPaths(recs: seq<Record>, world: World, vals: Values, path: string)
    requires forall i | 0 <= i < |recs| :: recs[i].resource.Some?
    ensures Names(Reported(recs, None, world, vals), path)
            <==> exists i :: 0 <= i < |recs| && Stale(recs[i], world, vals) && recs[i].resource == Some(path)
  {
    var out := Reported(recs, None, world, vals);
    if j :| 0 <= j < |out| && out[j].path == path {
      ReportedIsStale(recs, None, world, vals, out[j]);
    }
    if i :| 0 <= i < |recs| && Stale(recs[i], world, vals) && recs[i].resource == Some(path) {
      StaleIsReported(recs, None, world, vals, i);
    }
  }

  // ---------------------------------------------------------------- the scan

  lemma {:induction false} ReportedMore(recs: seq<Record>, last: Option<string>, world: World, vals: Values,
                                        rec: Record)
    ensures var out := Reported(recs, last, world, vals);
            var seen := LastSeen(out, last);
            Reported(recs + [rec], last, world, vals)
            == if (seen != None && seen == rec.resource) || !Stale(rec, world, vals) then out
               else out + [Outdated(rec.kind, rec.flags, Text(rec.resource))]
  {
    if recs == [] {
      assert (recs + [rec])[1..] == [];
    } else {
      assert (recs + [rec])[1..] == recs[1..] + [rec];
      var pushes := !(last != None && last == recs[0].resource) && Stale(recs[0], world, vals);
      ReportedMore(recs[1..], if pushes then Some(Text(recs[0].resource)) else last, world, vals, rec);
    }
  }

  /** What has been reported stays reported. */
  lemma {:induction false} ReportedPrefix(recs: seq<Record>, n: nat, world: World, vals: Values)
    requires n <= |recs|
    ensures Reported(recs[..n], None, world, vals) <= Reported(recs, None, world, vals)
    decreases |recs| - n
  {
    if n < |recs| {
      ReportedPrefix(recs, n + 1, world, vals);
      assert recs[..n + 1] == recs[..n] + [recs[n]];
      ReportedMore(recs[..n], None, world, vals, recs[n]);
    } else {
      assert recs[..n] == recs;
    }
  }

  function LastSeen(out: seq<Outdated>, last: Option<string>): Option<string> {
    if out == [] then last else Some(out[|out| - 1].path)
  }

  /** The records of an existing file, unless the rule is forced. */
  function Old(forced: bool, content: Option<string>): seq<Record> {
    if forced || content == None then [] else ReadFile(content.value, 0)
  }

  class Resolver {
    const forced: bool
    const handled: bool
    const vals: Values
    const toolchain: Option<string>
    var numDeps: nat
    var outdated: seq<Outdated>
    var called: bool

    constructor (forced: bool, handled: bool, vals: Values, toolchain: Option<string>)
      ensures this.forced == forced && this.handled == handled && this.vals == vals && this.toolchain == toolchain
      ensures numDeps == 0 && outdated == [] && !called
    {
      this.forced, this.handled, this.vals, this.toolchain := forced, handled, vals, toolchain;
      numDeps, outdated, called := 0, [], false;
    }

    /** node_resolve up to the call of on_resolve; `content` is the file left by the last build. */
    method Resolve(content: Option<string>, world: World) returns (ghost recs: seq<Record>)
      requires numDeps == 0 && outdated == [] && !called
      modifies this
      ensures forced || content == None || Regular(content.value) ==> recs == Old(forced, content)
      ensures handled && (forced || content == None || exists rec :: rec in recs && rec.kind == 'x') ==> called
      ensures && numDeps == |recs| && outdated == Reported(recs, None, world, vals)
              && called == (handled
                 && (recs == [] || AnyStale(recs, world, vals) || (toolchain.Some? && !TargetSeen(recs))))
    {
      var seen := false;
      recs := [];
      if !forced && content.Some? {
        seen, recs := ScanFile(content.value, world);
      }
      var targetChanged := toolchain.Some? && !seen;
      SkippingKeepsDecision(recs, world, vals);
      if rec :| rec in recs && rec.kind == 'x' {
        ghost var i :| 0 <= i < |recs| && recs[i] == rec;
        assert Stale(recs[i], world, vals);
      }
      if handled && (numDeps == 0 || |outdated| > 0 || targetChanged) {
        called := true;
      }
    }

    method ScanFile(content: string, world: World) returns (seen: bool, ghost recs: seq<Record>)
      requires numDeps == 0 && outdated == []
      modifies this`numDeps, this`outdated
      ensures Regular(content) ==> recs == ReadFile(content, 0)
      ensures numDeps == |recs| && outdated == Reported(recs, None, world, vals) && seen == TargetSeen(recs)
    {
      var deps := new Deps(content);
      if Regular(content) { LeftAtStart(content); }
      ghost var done: seq<Record> := [];
      var prevOutdated: Option<string> := None;
      seen := false;
      var more := NextRecord(deps, content, done);
      while more
        invariant fresh(deps) && fresh(deps.buf) && deps.Valid() && deps.file == content
        invariant Regular(content) ==>
          if more then Left(content, done + [deps.Current()], deps.pos, deps.Current().serial)
          else done == ReadFile(content, 0)
        invariant State(done, world, prevOutdated, seen)
        decreases |content| - deps.pos, if more then 1 else 0
      {
        ghost var rec := deps.Current();
        prevOutdated, seen := Consider(deps, world, prevOutdated, seen, done);
        done := done + [rec];
        more := NextRecord(deps, content, done);
      }
      recs := done;
    }

    /** What the scan knows after the records `done`. */
    ghost predicate State(done: seq<Record>, world: World, prevOutdated: Option<string>, seen: bool)
      reads this
    {
      && numDeps == |done| && outdated == Reported(done, None, world, vals)
      && prevOutdated == LastSeen(outdated, None) && seen == TargetSeen(done)
    }

    /** Judges the record under the cursor. */
    method Consider(deps: Deps, world: World, prev: Option<string>, seen0: bool, ghost done: seq<Record>)
      returns (prevOutdated: Option<string>, seen: bool)
      requires deps.Valid() && State(done, world, prev, seen0)
      modifies this`numDeps, this`outdated
      ensures State(done + [deps.Current()], world, prevOutdated, seen)
    {
      var rec := deps.Current();
      prevOutdated, seen := prev, seen0;
      ReportedMore(done, None, world, vals, rec);
      SeenMore(done, rec);
      numDeps := numDeps + 1;
      if rec.kind == SYS_ENV && !seen && rec.alias == Some(AUTARK_TARGET) {
        seen := true;
      }
      var stale := false;
      if prevOutdated != None && prevOutdated == rec.resource {
        stale := false;
      } else {
        stale := Stale(rec, world, vals);
      }
      if stale {
        prevOutdated := Some(Text(rec.resource));
        outdated := outdated + [Outdated(rec.kind, rec.flags, Text(rec.resource))];
      }
    }
  }

  /** One step of the reader through a file. */
  method NextRecord(deps: Deps, content: string, ghost done: seq<Record>) returns (more: bool)
    requires deps.Valid() && deps.file == content && (Regular(content) ==> Left(content, done, deps.pos, deps.serial))
    modifies deps, deps.buf
    ensures deps.Valid() && deps.file == content && old(deps.pos) <= deps.pos && (more ==> old(deps.pos) < deps.pos)
    ensures Regular(content) ==>
      if more then Left(content, done + [deps.Current()], deps.pos, deps.Current().serial)
      else done == ReadFile(content, 0)
  {
    ghost var at, serial := deps.pos, deps.serial;
    more := deps.Next();
    if Regular(content) {
      ReadNext(content, at, serial, deps.pos, more, deps.Current());
      LeftNext(content, done, at, serial, deps.pos, more, deps.Current());
    }
  }

  /** What the reader's answer says about the rest of the file. */
  ghost predicate Continues(content: string, at: nat, serial: int, pos: nat, more: bool, rec: Record) {
    at <= pos <= |content| && Regular(content[pos..])
    && ReadFile(content[at..], serial) == if more then [rec] + ReadFile(content[pos..], rec.serial) else []
  }

  lemma ReadNext(content: string, at: nat, serial: int, pos: nat, more: bool, rec: Record)
    requires at <= |content| && Regular(content[at..]) && pos == at + |Ahead(content, at)|
    requires at == |content| ==> !more
    requires at < |content| && Plain(Shown(Ahead(content, at))) ==>
               var next := Parse(Shown(Ahead(content, at)), serial); more == next.Some? && (more ==> rec == next.value)
    ensures Continues(content, at, serial, pos, more, rec) && (more ==> at < pos)
  {
    var text := content[at..];
    assert text[0..] == text;
    assert Ahead(text, 0) == Ahead(content, at);
    assert text[|Ahead(text, 0)|..] == content[pos..];
  }

  lemma LeftNext(content: string, done: seq<Record>, at: nat, serial: int, pos: nat, more: bool, rec: Record)
    requires Left(content, done, at, serial) && Continues(content, at, serial, pos, more, rec)
    ensures if more then Left(content, done + [rec], pos, rec.serial) else done == ReadFile(content, 0)
  {
    if more {
      var rest := ReadFile(content[pos..], rec.serial);
      assert done + ([rec] + rest) == (done + [rec]) + rest;
    } else {
      assert done + [] == done;
    }
  }

  /** After `done`, the file still holds what follows `pos`. */
  ghost predicate Left(content: string, done: seq<Record>, pos: nat, serial: int) {
    pos <= |content| && Regular(content[pos..]) && ReadFile(content, 0) == done + ReadFile(content[pos..], serial)
  }

  lemma LeftAtStart(content: string)
    requires Regular(content)
    ensures Left(content, [], 0, 0)
  {
    assert content[0..] == content;
    assert [] + ReadFile(content, 0) == ReadFile(content, 0);
  }

  lemma SeenMore(recs: seq<Record>, rec: Record)
    ensures TargetSeen(recs + [rec]) == (TargetSeen(recs) || (rec.kind == SYS_ENV && rec.alias == Some(AUTARK_TARGET)))
  {
    var more := recs + [rec];
    if i :| 0 <= i < |recs| && recs[i].kind == SYS_ENV && recs[i].alias == Some(AUTARK_TARGET) {
      assert more[i] == recs[i];
    }
    if rec.kind == SYS_ENV && rec.alias == Some(AUTARK_TARGET) {
      assert more[|recs|] == rec;
    }
  }

  // ---------------------------------------------------------------- null build

  /** One call of deps_add and its variants. */
  datatype Entry = Entry(kind: char, flags: char, resource: string, alias: string, serial: int)

  /** What node_resolve_toolchain_deps adds for the active target and its descriptor file. */
  function ToolchainEntries(target: Option<string>, file: Option<string>): seq<Entry> {
    if target == None then []
    else [Entry(SYS_ENV, NUL, target.value, AUTARK_TARGET, 0)] + DescriptorEntries(file)
  }

  function DescriptorEntries(file: Option<string>): seq<Entry> {
    if file == None then []
    else [Entry(SYS_ENV, NUL, file.value, AUTARK_TOOLCHAIN, 0), Entry(FILE, NUL, file.value, "", 0)]
  }

  function StampOf(e: Entry, world: World): Option<Record> {
    Stamp(e.kind, e.flags, e.resource, e.alias, e.serial, world)
  }

  /** Recorded while the dependency held: files there, values as they are, nothing always outdated. */
  predicate Holding(e: Entry, world: World, vals: Values) {
    var res, al := Canonical(e.resource, world.cwd), Canonical(e.alias, world.cwd);
    if e.kind == FILE then res.Some? && res.value in world.files
    else if e.kind == ALIAS then res.Some? && al.Some? && al.value in world.files
    else if e.kind == FILE_NOT_EXISTS then res.Some? && res.value !in world.files
    else if e.kind == NODE_VALUE then 0 <= e.serial < |vals| && vals[e.serial] == Some(e.resource)
    else if e.kind == ENV then Known(world.env, e.alias) == e.resource
    else e.kind == SYS_ENV && Known(world.sysEnv, e.alias) == e.resource
  }

  /** Nothing the entry watches is different: no file is newer or gone, no value changed. */
  predicate SameFor(e: Entry, world: World, vals: Values, world': World, vals': Values) {
    var res, al := Canonical(e.resource, world.cwd), Canonical(e.alias, world.cwd);
    if e.kind == FILE then res.Some? && res.value in world.files && res.value in world'.files
    && world'.files[res.value] <= world.files[res.value]
    else if e.kind == ALIAS then al.Some? && al.value in world.files && al.value in world'.files
    && world'.files[al.value] <= world.files[al.value]
    else if e.kind == FILE_NOT_EXISTS then res.Some? && (res.value in world.files <==> res.value in world'.files)
    else if e.kind == NODE_VALUE then 0 <= e.serial < |vals| && e.serial < |vals'| && vals[e.serial] == vals'[e.serial]
    else if e.kind == ENV then Known(world.env, e.alias) == Known(world'.env, e.alias)
    else Known(world.sysEnv, e.alias) == Known(world'.sysEnv, e.alias)
  }

  /** An entry is stale later exactly when what it watches has changed. */
  lemma StaleMeansChanged(e: Entry, world: World, vals: Values, world': World, vals': Values, serial: int)
    requires Holding(e, world, vals) && Admissible(e.kind, e.flags, e.resource, e.alias, e.serial, world)
    ensures StampOf(e, world).Some?
    ensures Stale(ReadBack(StampOf(e, world).value, serial), world', vals') <==> !SameFor(e, world, vals, world', vals')
  {
  }

  /** An entry that cannot be stamped ends the process; it gets an arbitrary record. */
  function RecordOf(e: Entry, world: World): Record {
    if StampOf(e, world).Some? then StampOf(e, world).value else Record(OUTDATED, ' ', None, Some(""), 0)
  }

  function Stamps(es: seq<Entry>, world: World): seq<Record> {
    seq(|es|, i requires 0 <= i < |es| => RecordOf(es[i], world))
  }

  lemma {:induction false} ReadBacksAt(recs: seq<Record>, serial: int, i: nat)
    requires i < |recs|
    ensures |ReadBacks(recs, serial)| == |recs| && exists s :: ReadBacks(recs, serial)[i] == ReadBack(recs[i], s)
  {
    var next := ReadBack(recs[0], serial).serial;
    if |recs| > 1 { ReadBacksAt(recs[1..], next, if i > 0 then i - 1 else 0); }
    if i > 0 {
      assert ReadBacks(recs, serial)[i] == ReadBacks(recs[1..], next)[i - 1];
    } else {
      assert ReadBacks(recs, serial)[0] == ReadBack(recs[0], serial);
    }
  }

  /**
   Written by one build and read by the next, a file of entries that held finds a change exactly when there
   is one.
   */
  lemma WriteReadCheck(es: seq<Entry>, world: World, vals: Values, world': World, vals': Values)
    requires forall i | 0 <= i < |es| ::
               Holding(es[i], world, vals)
               && Admissible(es[i].kind, es[i].flags, es[i].resource, es[i].alias, es[i].serial, world)
               && StampOf(es[i], world).Some? && |Line(StampOf(es[i], world).value)| < DEPS_BUF_SZ
    ensures var content := Content(Stamps(es, world));
            && Regular(content) && |ReadFile(content, 0)| == |es|
            && (AnyStale(ReadFile(content, 0), world', vals') <==>
                 exists i :: 0 <= i < |es| && !SameFor(es[i], world, vals, world', vals'))
  {
    var recs := Stamps(es, world);
    forall i | 0 <= i < |recs| ensures Storable(recs[i]) {
      var e := es[i];
      StampWritable(e.kind, e.flags, e.resource, e.alias, e.serial, world);
    }
    FileReadBack(recs, 0);
    var back := ReadBacks(recs, 0);
    if recs != [] { ReadBacksAt(recs, 0, 0); }
    forall i | 0 <= i < |es| ensures |back| == |es|
    && (Stale(back[i], world', vals') <==> !SameFor(es[i], world, vals, world', vals')) {
      ReadBacksAt(recs, 0, i);
      var s :| back[i] == ReadBack(recs[i], s);
      StaleMeansChanged(es[i], world, vals, world', vals', s);
    }
    assert |back| == |es|;
  }

  // ---------------------------------------------------------------- when an entry is outdated later

  /** What the entry watches is not as it was recorded: a condition for each kind, on the two worlds. */
  predicate Expired(e: Entry, world: World, world': World, vals': Values) {
    var res, al := Text(Canonical(e.resource, world.cwd)), Text(Canonical(e.alias, world.cwd));
    match e.kind
    case 'f' => res !in world'.files || world'.files[res] > (if res in world.files then world.files[res] else e.serial)
    case 'o' => res !in world'.files || world'.files[res] > 0
    case 'a' => al !in world'.files || world'.files[al] > (if al in world.files then world.files[al] else e.serial)
    case 'n' => res in world'.files
    case 'v' => !(0 <= e.serial < |vals'| && vals'[e.serial] == Some(e.resource))
    case 'e' => (if e.alias in world'.env then world'.env[e.alias] else "") != e.resource
    case 's' => (if e.alias in world'.sysEnv then world'.sysEnv[e.alias] else "") != e.resource
    case _ => e.kind == 'x'
  }

  /** It can be recorded, and read back as recorded. */
  predicate Recordable(e: Entry, world: World) {
    StampOf(e, world).Some? && Storable(StampOf(e, world).value)
  }

  ghost predicate StorableAt(es: seq<Entry>, world: World, i: nat) {
    i < |es| ==> Recordable(es[i], world)
  }

  /** A record is outdated later exactly when its entry has expired. */
  lemma StaleIsExpired(e: Entry, world: World, world': World, vals': Values, serial: int)
    requires Recordable(e, world)
    ensures Stale(ReadBack(StampOf(e, world).value, serial), world', vals') <==> Expired(e, world, world', vals')
  {
  }

  ghost predicate ExpiredAt(es: seq<Entry>, world: World, world': World, vals': Values, i: nat) {
    i < |es| && Expired(es[i], world, world', vals')
  }

  ghost predicate NamesTarget(es: seq<Entry>, i: nat) {
    i < |es| && es[i].kind == 's' && es[i].alias == "AUTARK_TARGET"
  }

  /** Record `i` is what the entry was recorded as. */
  ghost predicate Returns(es: seq<Entry>, world: World, recs: seq<Record>, i: nat) {
    i < |es| && i < |recs| ==> exists serial :: recs[i] == ReadBack(RecordOf(es[i], world), serial)
  }

  lemma WrittenIsRead(es: seq<Entry>, world: World)
    requires forall i: nat :: StorableAt(es, world, i)
    ensures Regular(Content(Stamps(es, world))) && |ReadFile(Content(Stamps(es, world)), 0)| == |es|
    ensures forall i: nat :: Returns(es, world, ReadFile(Content(Stamps(es, world)), 0), i)
  {
    var stamps, recs := Stamps(es, world), ReadFile(Content(Stamps(es, world)), 0);
    forall i | 0 <= i < |stamps| ensures Storable(stamps[i]) {
      assert StorableAt(es, world, i);
    }
    FileReadBack(stamps, 0);
    if es != [] { ReadBacksAt(stamps, 0, 0); }
    forall i: nat ensures Returns(es, world, recs, i) {
      if i < |es| { ReadBacksAt(stamps, 0, i); }
    }
  }

  /** Record `i` is outdated exactly when its entry has expired. */
  lemma RecordExpires(es: seq<Entry>, world: World, world': World, vals': Values, i: nat)
    requires (forall j: nat :: StorableAt(es, world, j)) && i < |es|
    ensures var recs := ReadFile(Content(Stamps(es, world)), 0);
            && |recs| == |es|
            && (Stale(recs[i], world', vals') <==> ExpiredAt(es, world, world', vals', i))
            && (recs[i].kind == SYS_ENV && recs[i].alias == Some(AUTARK_TARGET) <==> NamesTarget(es, i))
  {
    var recs := ReadFile(Content(Stamps(es, world)), 0);
    WrittenIsRead(es, world);
    assert StorableAt(es, world, i) && Returns(es, world, recs, i);
    var serial :| recs[i] == ReadBack(RecordOf(es[i], world), serial);
    StaleIsExpired(es[i], world, world', vals', serial);
    TargetStays(es[i], world, serial);
  }

  /** Whether the next build finds something outdated, and a target on record. */
  lemma FileExpires(es: seq<Entry>, world: World, world': World, vals': Values)
    requires forall i: nat :: StorableAt(es, world, i)
    ensures var recs := ReadFile(Content(Stamps(es, world)), 0);
            && (AnyStale(recs, world', vals') <==> exists i: nat :: ExpiredAt(es, world, world', vals', i))
            && (TargetSeen(recs) <==> exists i: nat :: NamesTarget(es, i))
  {
    var recs := ReadFile(Content(Stamps(es, world)), 0);
    WrittenIsRead(es, world);
    forall i | 0 <= i < |recs|
      ensures Stale(recs[i], world', vals') <==> ExpiredAt(es, world, world', vals', i)
      ensures recs[i].kind == SYS_ENV && recs[i].alias == Some(AUTARK_TARGET) <==> NamesTarget(es, i)
    {
      RecordExpires(es, world, world', vals', i);
    }
    if i: nat :| ExpiredAt(es, world, world', vals', i) { assert Stale(recs[i], world', vals'); }
    if i: nat :| NamesTarget(es, i) { assert recs[i].kind == SYS_ENV && recs[i].alias == Some(AUTARK_TARGET); }
  }

  lemma TargetStays(e: Entry, world: World, serial: int)
    requires Recordable(e, world)
    ensures var r := ReadBack(RecordOf(e, world), serial);
            r.kind == SYS_ENV && r.alias == Some(AUTARK_TARGET) <==> e.kind == 's' && e.alias == "AUTARK_TARGET"
  {
  }

  lemma WrittenMore(es: seq<Entry>, world: World, i: nat)
    requires i < |es|
    ensures Content(Stamps(es[..i + 1], world)) == Content(Stamps(es[..i], world)) + Line(RecordOf(es[i], world))
  {
    ContentMore(Stamps(es[..i], world), RecordOf(es[i], world));
    StampsMore(es[..i], es[i], world);
    assert es[..i + 1] == es[..i] + [es[i]];
  }

  lemma StampsMore(es: seq<Entry>, e: Entry, world: World)
    ensures Stamps(es + [e], world) == Stamps(es, world) + [RecordOf(e, world)]
  {
  }

  /** A run writes its dependencies to a new file. */
  method WriteAll(es: seq<Entry>, world: World) returns (content: string)
    requires forall i: nat :: StorableAt(es, world, i)
    ensures content == Content(Stamps(es, world))
  {
    var deps := new Deps("");
    var i := 0;
    assert Stamps(es[..0], world) == [];
    while i < |es|
      invariant 0 <= i <= |es| && fresh(deps) && fresh(deps.buf) && deps.Valid()
      invariant deps.file == Content(Stamps(es[..i], world))
    {
      var e := es[i];
      assert StorableAt(es, world, i);
      WrittenMore(es, world, i);
      var ok := deps.Add(e.kind, e.flags, e.resource, e.alias, e.serial, world);
      i := i + 1;
    }
    assert es[..i] == es;
    content := deps.file;
  }

  /** One run writes its dependencies, and the next asks whether on_resolve is to be called. */
  method WriteThenResolve(es: seq<Entry>, world: World, world': World, vals': Values, target: Option<string>)
    returns (called: bool)
    requires forall i: nat :: StorableAt(es, world, i)
    ensures called <==>
              || es == []
              || (exists i: nat :: ExpiredAt(es, world, world', vals', i))
              || (target.Some? && forall i: nat :: !NamesTarget(es, i))
  {
    var content := WriteAll(es, world);
    WrittenIsRead(es, world);
    FileExpires(es, world, world', vals');
    var r := new Resolver(false, true, vals', target);
    ghost var recs := r.Resolve(Some(content), world');
    called := r.called;
  }

  /** Null build: when nothing watched has changed, nothing is reported. */
  lemma NullBuild(es: seq<Entry>, world: World, vals: Values, world': World, vals': Values)
    requires forall i | 0 <= i < |es| ::
               Holding(es[i], world, vals)
               && Admissible(es[i].kind, es[i].flags, es[i].resource, es[i].alias, es[i].serial, world)
               && StampOf(es[i], world).Some? && |Line(StampOf(es[i], world).value)| < DEPS_BUF_SZ
    requires forall i | 0 <= i < |es| :: SameFor(es[i], world, vals, world', vals')
    ensures Reported(ReadFile(Content(Stamps(es, world)), 0), None, world', vals') == []
  {
    WriteReadCheck(es, world, vals, world', vals');
    SkippingKeepsDecision(ReadFile(Content(Stamps(es, world)), 0), world', vals');
  }
}
