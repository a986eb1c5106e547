/**
 The bounded pool of parallel compilations, _cc_compile_sources in node_cc.c. Sources are the
 positions of the rule's source list; `wait` may report any running task, in any order.
 */
module CompileLoop {
  /** What the outside sees; a task that cannot be spawned never runs. */
  datatype Event =
    | Start(src: nat)
    | SpawnFail(src: nat)
    | Wait
    | Finish(src: nat, code: int)

  type Log = seq<Event>

  function Last(log: Log): Event
    requires log != []
  {
    log[|log| - 1]
  }

  function Before(log: Log): Log
    requires log != []
  {
    log[..|log| - 1]
  }

  /** The tasks running after a log. */
  function Running(log: Log): (live: set<nat>)
    ensures forall k | k in live :: Start(k) in log
  {
    if log == [] then {}
    else match Last(log)
      case Start(k) => Running(Before(log)) + {k}
      case Finish(k, _) => Running(Before(log)) - {k}
      case _ => Running(Before(log))
  }

  /** The sources attempted, in order. */
  function Begun(log: Log): seq<nat> {
    if log == [] then []
    else match Last(log)
      case Start(k) => Begun(Before(log)) + [k]
      case SpawnFail(k) => Begun(Before(log)) + [k]
      case _ => Begun(Before(log))
  }

  predicate Fails(e: Event, k: nat) {
    e == SpawnFail(k) || (e.Finish? && e.src == k && e.code != 0)
  }

  /** The sources that failed, and how many failures were seen. */
  function Failed(log: Log): set<nat> {
    if log == [] then {}
    else match Last(log)
      case SpawnFail(k) => Failed(Before(log)) + {k}
      case Finish(k, code) => if code != 0 then Failed(Before(log)) + {k} else Failed(Before(log))
      case _ => Failed(Before(log))
  }

  function NumFailed(log: Log): nat {
    if log == [] then 0
    else NumFailed(Before(log)) + match Last(log)
      case SpawnFail(_) => 1
      case Finish(_, code) => if code != 0 then 1 else 0
      case _ => 0
  }

  /** How a pool of `maxJobs` may go through `slist`, one event at a time. */
  ghost predicate Disciplined(log: Log, slist: seq<nat>, maxJobs: nat) {
    log == [] || (
      && Disciplined(Before(log), slist, maxJobs)
      && match Last(log)
         case Start(k) => Begun(log) <= slist && |Running(Before(log))| < maxJobs
         case SpawnFail(k) => Begun(log) <= slist && |Running(Before(log))| < maxJobs
         case Wait => Running(Before(log)) != {} && (|Running(log)| >= maxJobs || Begun(log) == slist)
         case Finish(k, _) => k in Running(Before(log)) && Before(log) != [] && Last(Before(log)) == Wait)
  }

  ghost predicate DifferAt(s: seq<nat>, i: nat, j: nat) {
    i < j < |s| ==> s[i] != s[j]
  }

  ghost predicate NoneTwice(s: seq<nat>) {
    forall i: nat, j: nat :: DifferAt(s, i, j)
  }

  lemma {:induction false} NoneTwiceMore(s: seq<nat>, k: nat)
    requires NoneTwice(s) && k !in s
    ensures NoneTwice(s + [k])
  {
    forall i: nat, j: nat ensures DifferAt(s + [k], i, j) {
      assert DifferAt(s, i, j);
    }
  }

  lemma Extended(log: Log, e: Event)
    ensures Before(log + [e]) == log && Last(log + [e]) == e
  {
  }

  // ---------------------------------------------------------------- what every such log satisfies

  /** Whatever is cut off its end, a disciplined log stays one. */
  lemma {:induction false} EveryMoment(log: Log, slist: seq<nat>, maxJobs: nat, n: nat)
    requires Disciplined(log, slist, maxJobs) && n <= |log|
    ensures Disciplined(log[..n], slist, maxJobs)
  {
    if n < |log| {
      EveryMoment(Before(log), slist, maxJobs, n);
      assert Before(log)[..n] == log[..n];
    } else {
      assert log[..n] == log;
    }
  }

  /** Never more than `maxJobs` tasks run, and the sources are attempted in order. */
  lemma {:induction false} Bounded(log: Log, slist: seq<nat>, maxJobs: nat)
    requires Disciplined(log, slist, maxJobs)
    ensures |Running(log)| <= maxJobs && Begun(log) <= slist
  {
    if log != [] {
      Bounded(Before(log), slist, maxJobs);
    }
  }

  /** `wait` is entered only with a task running, and with a free slot only after every source was attempted. */
  lemma NoIdleWait(log: Log, slist: seq<nat>, maxJobs: nat, n: nat)
    requires Disciplined(log, slist, maxJobs) && n < |log| && log[n] == Wait
    ensures Running(log[..n]) != {} && (|Running(log[..n])| == maxJobs || Begun(log[..n]) == slist)
  {
    var now := log[..n];
    EveryMoment(log, slist, maxJobs, n + 1);
    PrefixMore(log, n);
    WaitAllowed(now, slist, maxJobs);
  }

  lemma PrefixMore(log: Log, n: nat)
    requires n < |log|
    ensures log[..n + 1] == log[..n] + [log[n]]
  {
  }

  lemma WaitAllowed(now: Log, slist: seq<nat>, maxJobs: nat)
    requires Disciplined(now + [Wait], slist, maxJobs)
    ensures Running(now) != {} && (|Running(now)| == maxJobs || Begun(now) == slist)
  {
    Extended(now, Wait);
    Bounded(now, slist, maxJobs);
  }

  function Starts(log: Log, k: nat): nat {
    if log == [] then 0 else Starts(Before(log), k) + (if Last(log) == Start(k) then 1 else 0)
  }

  function SpawnFails(log: Log, k: nat): nat {
    if log == [] then 0 else SpawnFails(Before(log), k) + (if Last(log) == SpawnFail(k) then 1 else 0)
  }

  function Ends(log: Log, k: nat): nat {
    if log == [] then 0 else Ends(Before(log), k) + (if Last(log).Finish? && Last(log).src == k then 1 else 0)
  }

  function Occurrences(s: seq<nat>, k: nat): nat {
    if s == [] then 0 else Occurrences(s[..|s| - 1], k) + (if s[|s| - 1] == k then 1 else 0)
  }

  lemma {:induction false} TimesOne(s: seq<nat>, n: nat, k: nat)
    requires NoneTwice(s) && n <= |s|
    ensures Occurrences(s[..n], k) == if k in s[..n] then 1 else 0
  {
    if n > 0 {
      TimesOne(s, n - 1, k);
      if k in s[..n - 1] {
        var i :| 0 <= i < n - 1 && s[..n - 1][i] == k;
        assert DifferAt(s, i, n - 1);
      }
      assert s[..n][..n - 1] == s[..n - 1] && s[..n] == s[..n - 1] + [s[n - 1]];
    }
  }

  lemma {:induction false} Attempts(log: Log, k: nat)
    ensures Occurrences(Begun(log), k) == Starts(log, k) + SpawnFails(log, k)
  {
    if log != [] {
      Attempts(Before(log), k);
    }
  }

  lemma AttemptedOnce(log: Log, slist: seq<nat>, maxJobs: nat, k: nat)
    requires Disciplined(log, slist, maxJobs) && NoneTwice(slist)
    ensures Starts(log, k) + SpawnFails(log, k) == if k in Begun(log) then 1 else 0
  {
    Attempts(log, k);
    Bounded(log, slist, maxJobs);
    TimesOne(slist, |Begun(log)|, k);
    assert Begun(log) == slist[..|Begun(log)|];
  }

  /** A source is attempted at most once; what was started runs until it ends. */
  lemma {:induction false} Ledger(log: Log, slist: seq<nat>, maxJobs: nat, k: nat)
    requires Disciplined(log, slist, maxJobs) && NoneTwice(slist)
    ensures Starts(log, k) + SpawnFails(log, k) == if k in Begun(log) then 1 else 0
    ensures Starts(log, k) == Ends(log, k) + (if k in Running(log) then 1 else 0)
  {
    AttemptedOnce(log, slist, maxJobs, k);
    if log != [] {
      Ledger(Before(log), slist, maxJobs, k);
      if k in Running(Before(log)) { RunningBegun(Before(log), k); }
    }
  }

  lemma {:induction false} RunningBegun(log: Log, k: nat)
    requires k in Running(log)
    ensures k in Begun(log) && Starts(log, k) >= 1
  {
    if log != [] && k in Running(Before(log)) {
      RunningBegun(Before(log), k);
    }
  }

  ghost predicate Complete(log: Log, slist: seq<nat>, maxJobs: nat) {
    Disciplined(log, slist, maxJobs) && Running(log) == {} && Begun(log) == slist
  }

  /** A finished pool attempted each source exactly once, and each started task ended exactly once. */
  lemma OnceEach(log: Log, slist: seq<nat>, maxJobs: nat, k: nat)
    requires Complete(log, slist, maxJobs) && NoneTwice(slist)
    ensures Starts(log, k) + SpawnFails(log, k) == if k in slist then 1 else 0
    ensures Ends(log, k) == Starts(log, k)
  {
    Ledger(log, slist, maxJobs, k);
  }

  /** A source fails at most once, so counting failures counts the failed sources. */
  lemma {:induction false} FailuresCounted(log: Log, slist: seq<nat>, maxJobs: nat)
    requires Disciplined(log, slist, maxJobs) && NoneTwice(slist)
    ensures NumFailed(log) == |Failed(log)|
  {
    if log != [] {
      FailuresCounted(Before(log), slist, maxJobs);
      var e := Last(log);
      if e.SpawnFail? || e.Finish? {
        if e.src in Failed(Before(log)) {
          FailedEnds(Before(log), e.src);
          Ledger(log, slist, maxJobs, e.src);
          Ledger(Before(log), slist, maxJobs, e.src);
        }
      }
    }
  }

  lemma {:induction false} FailedEnds(log: Log, k: nat)
    ensures k in Failed(log) ==> SpawnFails(log, k) + Ends(log, k) >= 1
    ensures k in Failed(log) <==> exists i ::
              0 <= i < |log| && (log[i] == SpawnFail(k) || (log[i].Finish? && log[i].src == k && log[i].code != 0))
  {
    if log != [] {
      FailedEnds(Before(log), k);
      if k in Failed(Before(log)) {
        var i :| 0 <= i < |Before(log)| && Fails(Before(log)[i], k);
        assert log[i] == Before(log)[i];
      } else if k in Failed(log) {
        assert Fails(log[|log| - 1], k);
      }
      if i :| 0 <= i < |log| && Fails(log[i], k) {
        if i < |log| - 1 { assert Before(log)[i] == log[i]; }
      }
    }
  }

  // ---------------------------------------------------------------- the loop

  datatype Task = Task(src: nat, path: string)

  function Sources(tasks: seq<Task>): seq<nat> {
    seq(|tasks|, i requires 0 <= i < |tasks| => tasks[i].src)
  }

  lemma NoneTwiceWithout(s: seq<nat>, j: nat)
    requires NoneTwice(s) && j < |s|
    ensures var t := s[..j] + s[j + 1..]; NoneTwice(t) && Members(t) == Members(s) - {s[j]}
  {
    var t := s[..j] + s[j + 1..];
    forall x: nat, y: nat ensures DifferAt(t, x, y) {
      assert DifferAt(s, if x < j then x else x + 1, if y < j then y else y + 1);
    }
    forall k ensures k in t <==> k in s && k != s[j] {
      if k in s && k != s[j] {
        var i :| 0 <= i < |s| && s[i] == k;
        assert t[if i < j then i else i - 1] == k;
      }
      if k in t {
        var i :| 0 <= i < |t| && t[i] == k;
        assert DifferAt(s, i, j) && DifferAt(s, j, i + 1);
        assert s[if i < j then i else i + 1] == k;
      }
    }
  }

  function Members(s: seq<nat>): set<nat> {
    set k | k in s
  }

  lemma {:induction false} MembersCount(s: seq<nat>)
    requires NoneTwice(s)
    ensures |Members(s)| == |s|
  {
    if s != [] {
      var t := s[..|s| - 1];
      forall i: nat, j: nat ensures DifferAt(t, i, j) { assert DifferAt(s, i, j); }
      MembersCount(t);
      forall i | 0 <= i < |t| ensures t[i] != s[|s| - 1] { assert DifferAt(s, i, |s| - 1); }
      assert Members(s) == Members(t) + {s[|s| - 1]};
    }
  }

  /** The outside world: whether a compiler can be spawned for a source, and its exit code. */
  datatype Compiler = Compiler(spawns: nat -> bool, exits: nat -> int)

  predicate Bad(cc: Compiler, k: nat) {
    !cc.spawns(k) || cc.exits(k) != 0
  }

  function BadOnes(slist: seq<nat>, cc: Compiler): set<nat> {
    set k | k in slist && Bad(cc, k)
  }

  function BadPaths(slist: seq<nat>, cc: Compiler, path: nat -> string): set<string> {
    PathsOf(BadOnes(slist, cc), path)
  }

  function PathsOf(bad: set<nat>, path: nat -> string): set<string> {
    set k | k in bad :: path(k)
  }

  /** Those that cannot be spawned, and those whose compiler does not end with 0. */
  lemma BadAre(slist: seq<nat>, cc: Compiler, path: nat -> string)
    ensures BadOnes(slist, cc) == set k | k in slist && (!cc.spawns(k) || cc.exits(k) != 0)
    ensures BadPaths(slist, cc, path) == set k | k in slist && (!cc.spawns(k) || cc.exits(k) != 0) :: path(k)
  {
  }

  lemma PathsOfMore(bad: set<nat>, k: nat, path: nat -> string)
    ensures PathsOf(bad + {k}, path) == PathsOf(bad, path) + {path(k)}
  {
  }

  predicate Real(e: Event, cc: Compiler) {
    match e
    case Start(k) => cc.spawns(k)
    case SpawnFail(k) => !cc.spawns(k)
    case Finish(k, code) => code == cc.exits(k)
    case Wait => true
  }

  ghost predicate RealAt(log: Log, i: nat, cc: Compiler) {
    i < |log| ==> Real(log[i], cc)
  }

  ghost predicate Truthful(log: Log, cc: Compiler) {
    forall i: nat :: RealAt(log, i, cc)
  }

  lemma TruthfulMore(log: Log, e: Event, cc: Compiler)
    requires Truthful(log, cc) && Real(e, cc)
    ensures Truthful(log + [e], cc)
  {
    var more := log + [e];
    forall i: nat ensures RealAt(more, i, cc) {
      assert RealAt(log, i, cc);
    }
  }

  lemma {:induction false} BadAreFailed(log: Log, cc: Compiler, slist: seq<nat>, maxJobs: nat, k: nat)
    requires Disciplined(log, slist, maxJobs) && Truthful(log, cc)
    ensures k in Failed(log) ==> k in Begun(log) && Bad(cc, k)
    ensures k in Begun(log) && k !in Running(log) && Bad(cc, k) ==> k in Failed(log)
    ensures k in Running(log) ==> cc.spawns(k) && k in Begun(log)
  {
    if log != [] {
      assert Truthful(Before(log), cc) by {
        var less := Before(log);
        forall i: nat ensures RealAt(less, i, cc) { assert RealAt(log, i, cc); }
      }
      assert RealAt(log, |log| - 1, cc);
      BadAreFailed(Before(log), cc, slist, maxJobs, k);
    }
  }

  /** Whatever the order of the waits, a finished pool failed on exactly the sources that cannot be compiled. */
  lemma VerdictIsFixed(log: Log, cc: Compiler, slist: seq<nat>, maxJobs: nat)
    requires Complete(log, slist, maxJobs) && Truthful(log, cc)
    ensures Failed(log) == BadOnes(slist, cc)
    ensures forall k :: k in Failed(log) <==> k in slist && (!cc.spawns(k) || cc.exits(k) != 0)
  {
    forall k: nat ensures k in Failed(log) <==> k in slist && Bad(cc, k) {
      BadAreFailed(log, cc, slist, maxJobs, k);
    }
  }

  /** The pool between two events: `i` sources attempted, `tasks` running. */
  ghost predicate Working(i: nat, tasks: seq<Task>, slist: seq<nat>, maxJobs: nat, cc: Compiler, path: nat -> string,
                          done: Log) {
    && Disciplined(done, slist, maxJobs) && Truthful(done, cc)
    && i <= |slist| && Begun(done) == slist[..i]
    && NoneTwice(Sources(tasks)) && Members(Sources(tasks)) == Running(done)
    && Named(tasks, path)
  }

  ghost predicate NamedAt(tasks: seq<Task>, i: nat, path: nat -> string) {
    i < |tasks| ==> tasks[i].path == path(tasks[i].src)
  }

  ghost predicate Named(tasks: seq<Task>, path: nat -> string) {
    forall i: nat :: NamedAt(tasks, i, path)
  }

  /** What an attempt adds to the log. */
  function AttemptEvent(k: nat, cc: Compiler): Event {
    if cc.spawns(k) then Start(k) else SpawnFail(k)
  }

  /** The log and the pool after the i-th source was attempted. */
  lemma Attempt(i: nat, tasks: seq<Task>, slist: seq<nat>, maxJobs: nat, cc: Compiler, path: nat -> string, done: Log)
    requires Working(i, tasks, slist, maxJobs, cc, path, done) && NoneTwice(slist) && i < |slist| && |tasks| < maxJobs
    ensures var k := slist[i];
            Working(i + 1, if cc.spawns(k) then tasks + [Task(k, path(k))] else tasks, slist, maxJobs, cc, path,
                    done + [AttemptEvent(k, cc)])
  {
    var k := slist[i];
    MembersCount(Sources(tasks));
    assert slist[..i + 1] == slist[..i] + [k];
    Extended(done, AttemptEvent(k, cc));
    TruthfulMore(done, AttemptEvent(k, cc), cc);
    if cc.spawns(k) {
      NewTask(i, tasks, slist, path, done);
    }
  }

  lemma NewTask(i: nat, tasks: seq<Task>, slist: seq<nat>, path: nat -> string, done: Log)
    requires NoneTwice(slist) && i < |slist| && Begun(done) == slist[..i]
    requires NoneTwice(Sources(tasks)) && Members(Sources(tasks)) == Running(done) && Named(tasks, path)
    ensures var k := slist[i]; var more := tasks + [Task(k, path(k))];
            NoneTwice(Sources(more)) && Members(Sources(more)) == Running(done) + {k} && Named(more, path)
  {
    var k := slist[i];
    var more := tasks + [Task(k, path(k))];
    assert Sources(more) == Sources(tasks) + [k];
    forall j | 0 <= j < i ensures slist[..i][j] != k { assert DifferAt(slist, j, i); }
    assert k !in Begun(done);
    if k in Running(done) { RunningBegun(done, k); }
    assert k !in Members(Sources(tasks));
    NoneTwiceMore(Sources(tasks), k);
    assert Members(Sources(more)) == Members(Sources(tasks)) + {k};
    forall j: nat ensures NamedAt(more, j, path) { assert NamedAt(tasks, j, path); }
  }

  lemma Waiting(i: nat, tasks: seq<Task>, slist: seq<nat>, maxJobs: nat, cc: Compiler, path: nat -> string, done: Log)
    requires Working(i, tasks, slist, maxJobs, cc, path, done) && tasks != []
    requires |tasks| >= maxJobs || i == |slist|
    ensures Working(i, tasks, slist, maxJobs, cc, path, done + [Wait])
  {
    Extended(done, Wait);
    TruthfulMore(done, Wait, cc);
    MembersCount(Sources(tasks));
    assert tasks[0].src == Sources(tasks)[0];
    assert Sources(tasks)[0] in Members(Sources(tasks));
  }

  lemma Reaped(i: nat, tasks: seq<Task>, slist: seq<nat>, maxJobs: nat, cc: Compiler, path: nat -> string, done: Log,
               j: nat)
    requires Working(i, tasks, slist, maxJobs, cc, path, done) && j < |tasks| && done != [] && Last(done) == Wait
    ensures Working(i, Without(tasks, j), slist, maxJobs, cc, path,
                    done + [Finish(tasks[j].src, cc.exits(tasks[j].src))])
  {
    var k := tasks[j].src;
    var e := Finish(k, cc.exits(k));
    Extended(done, e);
    TruthfulMore(done, e, cc);
    OldTask(tasks, path, j);
    assert Sources(tasks)[j] == k && k in Members(Sources(tasks));
  }

  function Without(tasks: seq<Task>, j: nat): seq<Task>
    requires j < |tasks|
  {
    tasks[..j] + tasks[j + 1..]
  }

  lemma OldTask(tasks: seq<Task>, path: nat -> string, j: nat)
    requires NoneTwice(Sources(tasks)) && Named(tasks, path) && j < |tasks|
    ensures var less := Without(tasks, j);
            NoneTwice(Sources(less)) && Members(Sources(less)) == Members(Sources(tasks)) - {tasks[j].src}
            && Named(less, path)
  {
    var less := Without(tasks, j);
    NoneTwiceWithout(Sources(tasks), j);
    assert Sources(less) == Sources(tasks)[..j] + Sources(tasks)[j + 1..];
    forall x: nat ensures NamedAt(less, x, path) { assert NamedAt(tasks, if x < j then x else x + 1, path); }
  }

  /** The part of the rule's state the pool works on. */
  class Jobs {
    const path: nat -> string
    const cc: Compiler
    var numFailed: nat
    var fmap: set<string>

    constructor (path: nat -> string, cc: Compiler)
      ensures this.path == path && this.cc == cc && numFailed == 0 && fmap == {}
    {
      this.path, this.cc := path, cc;
      numFailed, fmap := 0, {};
    }

    /** Counted and noted so far: what was there before, and the failures of the log. */
    ghost predicate Noted(since: nat, paths: set<string>, done: Log)
      reads this
    {
      numFailed == since + NumFailed(done) && fmap == paths + PathsOf(Failed(done), path)
    }

    /** _cc_compile_sources, for whatever task each `wait` reports. */
    method Compile(slist: seq<nat>, maxJobs: nat) returns (ghost done: Log)
      requires maxJobs >= 1 && NoneTwice(slist)
      modifies this
      ensures Complete(done, slist, maxJobs) && Truthful(done, cc)
      ensures Failed(done) == BadOnes(slist, cc)
      ensures numFailed == old(numFailed) + |BadOnes(slist, cc)|
      ensures fmap == old(fmap) + BadPaths(slist, cc, path)
      ensures numFailed == old(numFailed) + |set k | k in slist && (!cc.spawns(k) || cc.exits(k) != 0)|
      ensures fmap == old(fmap) + set k | k in slist && (!cc.spawns(k) || cc.exits(k) != 0) :: path(k)
    {
      var tasks: seq<Task> := [];
      var i := 0;
      done := [];
      while i < |slist| || |tasks| > 0
        modifies this
        invariant Working(i, tasks, slist, maxJobs, cc, path, done) && Noted(old(numFailed), old(fmap), done)
        decreases 2 * (|slist| - i) + |tasks|
      {
        i, tasks, done := Fill(i, tasks, slist, maxJobs, done, old(numFailed), old(fmap));
        if |tasks| == 0 {
          continue;
        }
        Waiting(i, tasks, slist, maxJobs, cc, path, done);
        done := done + [Wait];
        var pid :| 0 <= pid < |tasks|;
        tasks, done := Reap(i, tasks, pid, slist, maxJobs, done, old(numFailed), old(fmap));
      }
      assert slist[..i] == slist;
      VerdictIsFixed(done, cc, slist, maxJobs);
      FailuresCounted(done, slist, maxJobs);
      BadAre(slist, cc, path);
    }

    /** Starts tasks while there is a free slot. */
    method Fill(i0: nat, tasks0: seq<Task>, slist: seq<nat>, maxJobs: nat, ghost done0: Log, ghost since: nat,
                ghost paths: set<string>)
      returns (i: nat, tasks: seq<Task>, ghost done: Log)
      requires Working(i0, tasks0, slist, maxJobs, cc, path, done0) && NoneTwice(slist) && Noted(since, paths, done0)
      modifies this
      ensures Working(i, tasks, slist, maxJobs, cc, path, done) && Noted(since, paths, done)
      ensures |tasks| >= maxJobs || i == |slist|
      ensures i0 <= i && |tasks| - |tasks0| <= i - i0 && (|tasks0| < maxJobs && i0 < |slist| ==> i0 < i)
    {
      i, tasks, done := i0, tasks0, done0;
      while |tasks| < maxJobs && i < |slist|
        modifies this
        invariant Working(i, tasks, slist, maxJobs, cc, path, done) && Noted(since, paths, done)
        invariant i0 <= i && |tasks| - |tasks0| <= i - i0 && (i == i0 ==> tasks == tasks0)
        decreases |slist| - i
      {
        var src := slist[i];
        Attempt(i, tasks, slist, maxJobs, cc, path, done);
        Extended(done, AttemptEvent(src, cc));
        PathsOfMore(Failed(done), src, path);
        done := done + [AttemptEvent(src, cc)];
        if cc.spawns(src) {
          tasks := tasks + [Task(src, path(src))];
        } else {
          numFailed := numFailed + 1;
          fmap := fmap + {path(src)};
        }
        i := i + 1;
      }
    }

    /** A task has ended: its exit code is recorded and it leaves the pool. */
    method Reap(ghost i: nat, tasks0: seq<Task>, pid: nat, slist: seq<nat>, maxJobs: nat, ghost done0: Log,
                ghost since: nat, ghost paths: set<string>)
      returns (tasks: seq<Task>, ghost done: Log)
      requires pid < |tasks0| && Working(i, tasks0, slist, maxJobs, cc, path, done0) && Noted(since, paths, done0)
      requires done0 != [] && Last(done0) == Wait
      modifies this
      ensures Working(i, tasks, slist, maxJobs, cc, path, done) && Noted(since, paths, done)
      ensures |tasks| == |tasks0| - 1
    {
      assert NamedAt(tasks0, pid, path);
      Reaped(i, tasks0, slist, maxJobs, cc, path, done0, pid);
      var t := tasks0[pid];
      var code := cc.exits(t.src);
      done := done0 + [Finish(t.src, code)];
      Extended(done0, Finish(t.src, code));
      PathsOfMore(Failed(done0), t.src, path);
      if code != 0 {
        numFailed := numFailed + 1;
        fmap := fmap + {t.path};
      }
      tasks := Without(tasks0, pid);
    }
  }
}
