/**
 The depth-first scheduler of script.c. A node's state is its BUILT flag and its counter of
 running build calls; the only cycle check is that the counter never exceeds one, although the
 children of a node in progress may be entered again before that check is reached.
 */
module BuildEngine {
  import opened Options
  import opened BuildGraph

  /** A fatal error ends the process: nothing happens after it. */
  datatype Outcome =
    | Done
    | Cyclic(node: nat)
    | Unresolved(node: nat, path: string)

  // ---------------------------------------------------------------- invariants

  /** The flags agree with the log, and the log is a legal history. */
  ghost predicate LogMatches(g: seq<Rule>, built: seq<bool>, log: seq<Event>)
  {
    && |built| == |g|
    && Distinct(log) && Ordered(g, log)
    && (forall n | 0 <= n < |g| :: built[n] <==> Finish(n) in log)
    && (forall k | 0 <= k < |log| :: built[log[k].node])
  }

  /** The node's own build action is running: its children are built and its counter is one. */
  ghost predicate InBuild(g: seq<Rule>, built: seq<bool>, calls: seq<nat>, n: nat)
    requires WellFormed(g) && |built| == |calls| == |g| && n < |g|
  {
    && g[n].hasBuild && calls[n] == 1
    && forall i | 0 <= i < |g[n].children| :: built[g[n].children[i]]
  }

  /** `c` is the first child of `n` that is not built. */
  ghost predicate FirstOpen(g: seq<Rule>, built: seq<bool>, n: nat, c: nat)
    requires WellFormed(g) && |built| == |g| && n < |g|
  {
    exists j | 0 <= j < |g[n].children| ::
      g[n].children[j] == c && forall i | 0 <= i < j :: built[g[n].children[i]]
  }

  /**
   `path` lists the nodes in progress, outermost first. Each one waits for the next: either while
   it goes through its children, or from within its own build action.
   */
  ghost predicate StackOk(g: seq<Rule>, built: seq<bool>, calls: seq<nat>, path: seq<nat>)
    requires WellFormed(g) && |built| == |calls| == |g|
  {
    && Distinct(path)
    && (path == [] || Walk(g, built, path))
    && (forall n | 0 <= n < |g| :: calls[n] == 0 || (n in path && InBuild(g, built, calls, n)))
    && (forall k | 0 <= k < |path| - 1 :: calls[path[k]] == 0 ==> FirstOpen(g, built, path[k], path[k + 1]))
  }

  /** The owners of the first `k` requested paths are built. */
  ghost predicate OwnersBuilt(built: seq<bool>, deps: seq<Dep>, k: nat)
    requires k <= |deps|
  {
    forall i | 0 <= i < k && deps[i].owner.Some? :: deps[i].owner.value < |built| && built[deps[i].owner.value]
  }

  /** The producers of the absent ones among the first `k` sources are built. */
  ghost predicate ProducersBuilt(built: seq<bool>, sources: seq<Source>, k: nat)
    requires k <= |sources|
  {
    forall i | 0 <= i < k && !sources[i].present && sources[i].owner.Some? ::
      sources[i].owner.value < |built| && built[sources[i].owner.value]
  }

  /** The first `k` sources are there, or their producers are known and built. */
  ghost predicate SourcesThere(built: seq<bool>, sources: seq<Source>, k: nat)
    requires k <= |sources|
  {
    ProducersBuilt(built, sources, k) && forall i | 0 <= i < k && !sources[i].present :: sources[i].owner.Some?
  }

  /**
   What a call that ran to the end changed: nodes only became built, and every event added
   concerns a node reachable from the one asked for through nodes not built before.
   */
  ghost predicate Grows(g: seq<Rule>, b: seq<bool>, b': seq<bool>, log: seq<Event>, log': seq<Event>, n: nat)
    requires |b| == |b'| == |g|
  {
    && (forall i | 0 <= i < |g| :: b[i] ==> b'[i])
    && log <= log'
    && (forall k | |log| <= k < |log'| :: Reaches(g, b, n, log'[k].node))
  }

  /** A walk through the nodes in progress and on to a repetition, with `node` on the cycle. */
  ghost predicate LoopBeyond(g: seq<Rule>, b: seq<bool>, path: seq<nat>, node: nat)
    requires |b| == |g|
  {
    exists w :: path <= w && Walk(g, b, w) && Circles(w, node)
  }

  /** Why a run was aborted: a cycle was closed beyond `path`, or `n` leads to an input found nowhere. */
  ghost predicate Explained(g: seq<Rule>, b: seq<bool>, path: seq<nat>, n: nat, o: Outcome)
    requires |b| == |g|
  {
    match o
    case Done => true
    case Cyclic(x) => LoopBeyond(g, b, path, x)
    case Unresolved(x, missing) => x < |g| && FoundNowhere(g[x], missing) && Reaches(g, b, n, x)
  }

  /** The nodes whose build action has not started. */
  ghost function Idle(g: seq<Rule>, built: seq<bool>, calls: seq<nat>): set<nat>
    requires |built| == |calls| == |g|
  {
    set n: nat | n < |g| && g[n].hasBuild && !built[n] && calls[n] == 0
  }

  // ---------------------------------------------------------------- lemmas about one step

  lemma StartsWork(g: seq<Rule>, b0: seq<bool>, b1: seq<bool>, calls: seq<nat>, n: nat)
    requires |b0| == |b1| == |calls| == |g| && forall i | 0 <= i < |g| :: b0[i] ==> b1[i]
    requires n < |g| && g[n].hasBuild && !b0[n] && calls[n] == 0
    ensures Idle(g, b1, calls[n := 1]) < Idle(g, b0, calls)
  {
    assert n in Idle(g, b0, calls) && n !in Idle(g, b1, calls[n := 1]);
  }

  lemma SourceEdge(g: seq<Rule>, n: nat, i: nat)
    requires WellFormed(g) && n < |g| && g[n].hasBuild && i < |g[n].sources|
    requires !g[n].sources[i].present && g[n].sources[i].owner.Some?
    ensures g[n].sources[i].owner.value < |g| && Edge(g, n, g[n].sources[i].owner.value)
  {
    assert AsksSource(g[n].sources, g[n].sources[i].owner.value);
  }

  lemma DepEdge(g: seq<Rule>, n: nat, deps: seq<Dep>, i: nat)
    requires WellFormed(g) && n < |g| && g[n].hasBuild && !g[n].preferSources && i < |deps|
    requires (deps == g[n].consumes || deps == g[n].items) && deps[i].owner.Some?
    ensures deps[i].owner.value < |g| && Edge(g, n, deps[i].owner.value)
  {
    assert AsksDep(deps, deps[i].owner.value);
  }

  lemma StillBuilt(b0: seq<bool>, b1: seq<bool>, deps: seq<Dep>, k: nat)
    requires |b0| == |b1| && (forall i | 0 <= i < |b0| :: b0[i] ==> b1[i]) && k < |deps|
    requires OwnersBuilt(b0, deps, k)
    requires deps[k].owner.Some? ==> deps[k].owner.value < |b1| && b1[deps[k].owner.value]
    ensures OwnersBuilt(b1, deps, k + 1)
  {
  }

  lemma AllStillBuilt(b0: seq<bool>, b1: seq<bool>, deps: seq<Dep>)
    requires |b0| == |b1| && (forall i | 0 <= i < |b0| :: b0[i] ==> b1[i])
    ensures OwnersBuilt(b0, deps, |deps|) ==> OwnersBuilt(b1, deps, |deps|)
  {
  }

  lemma AllStillProduced(b0: seq<bool>, b1: seq<bool>, sources: seq<Source>)
    requires |b0| == |b1| && (forall i | 0 <= i < |b0| :: b0[i] ==> b1[i])
    ensures ProducersBuilt(b0, sources, |sources|) ==> ProducersBuilt(b1, sources, |sources|)
  {
  }

  lemma GrowsByOne(g: seq<Rule>, b: seq<bool>, b': seq<bool>, log: seq<Event>, log': seq<Event>, n: nat, e: Event)
    requires |b| == |b'| == |g| && n < |g| && !b[n]
    requires Grows(g, b, b', log, log', n) && e.node == n
    ensures Grows(g, b, b', log, log' + [e], n)
  {
    ReachesSelf(g, b, n);
  }

  lemma StillProduced(b0: seq<bool>, b1: seq<bool>, sources: seq<Source>, k: nat)
    requires |b0| == |b1| && (forall i | 0 <= i < |b0| :: b0[i] ==> b1[i]) && k < |sources|
    requires ProducersBuilt(b0, sources, k)
    requires !sources[k].present && sources[k].owner.Some? ==>
               sources[k].owner.value < |b1| && b1[sources[k].owner.value]
    ensures ProducersBuilt(b1, sources, k + 1)
  {
  }

  lemma GrowsStep(g: seq<Rule>, b0: seq<bool>, b1: seq<bool>, b2: seq<bool>,
                  log0: seq<Event>, log1: seq<Event>, log2: seq<Event>, n: nat, c: nat)
    requires |b0| == |b1| == |b2| == |g| && n < |g| && !b0[n] && Edge(g, n, c)
    requires Grows(g, b0, b1, log0, log1, n) && Grows(g, b1, b2, log1, log2, c)
    ensures Grows(g, b0, b2, log0, log2, n)
  {
    forall k | |log0| <= k < |log2| ensures Reaches(g, b0, n, log2[k].node) {
      if k < |log1| {
        assert log2[k] == log1[k];
      } else {
        ReachesStep(g, b0, b1, n, c, log2[k].node);
      }
    }
  }

  /** A later failure of `n` itself, seen from where it was entered. */
  lemma ExplainedEarlier(g: seq<Rule>, b0: seq<bool>, b1: seq<bool>, path: seq<nat>, n: nat, o: Outcome)
    requires |b0| == |b1| == |g| && forall i | 0 <= i < |g| :: b0[i] ==> b1[i]
    requires Explained(g, b1, path, n, o)
    ensures Explained(g, b0, path, n, o)
  {
    match o
    case Done =>
    case Cyclic(x) =>
      var w :| path <= w && Walk(g, b1, w) && Circles(w, x);
      assert Walk(g, b0, w);
    case Unresolved(x, _) => ReachesEarlier(g, b0, b1, n, x);
  }

  /** A failure of something `n` asked for is a failure of `n`. */
  lemma ExplainedStep(g: seq<Rule>, b0: seq<bool>, b1: seq<bool>, path: seq<nat>, n: nat, c: nat, o: Outcome)
    requires |b0| == |b1| == |g| && forall i | 0 <= i < |g| :: b0[i] ==> b1[i]
    requires n < |g| && !b0[n] && Edge(g, n, c)
    requires Explained(g, b1, path + [c], c, o)
    ensures Explained(g, b0, path, n, o)
  {
    match o
    case Done =>
    case Cyclic(x) =>
      var w :| path + [c] <= w && Walk(g, b1, w) && Circles(w, x);
      assert path <= w && Walk(g, b0, w);
    case Unresolved(x, _) => ReachesStep(g, b0, b1, n, c, x);
  }

  /** Asking for a node that is already in progress closes a cycle through all nodes from there on. */
  lemma ReentryLoops(g: seq<Rule>, b0: seq<bool>, b1: seq<bool>, path: seq<nat>, d: nat, at: nat, node: nat)
    requires |b0| == |b1| == |g| && forall i | 0 <= i < |g| :: b0[i] ==> b1[i]
    requires path != [] && Walk(g, b1, path) && Edge(g, path[|path| - 1], d)
    requires at < |path| && path[at] == d && node in path[at..]
    ensures LoopBeyond(g, b0, path, node)
  {
    var w := path + [d];
    assert w[at..] == path[at..] + [d];
    assert Walk(g, b0, w) && Circles(w, node) && path <= w;
  }

  lemma ReachesEarlier(g: seq<Rule>, b0: seq<bool>, b1: seq<bool>, n: nat, x: nat)
    requires |b0| == |b1| == |g| && forall i | 0 <= i < |g| :: b0[i] ==> b1[i]
    requires Reaches(g, b1, n, x)
    ensures Reaches(g, b0, n, x)
  {
    var w :| Walk(g, b1, w) && w[0] == n && w[|w| - 1] == x;
    assert Walk(g, b0, w);
  }

  lemma GrowsMore(g: seq<Rule>, b0: seq<bool>, b1: seq<bool>, b2: seq<bool>,
                  log0: seq<Event>, log1: seq<Event>, log2: seq<Event>, n: nat)
    requires |b0| == |b1| == |b2| == |g|
    requires Grows(g, b0, b1, log0, log1, n) && Grows(g, b1, b2, log1, log2, n)
    ensures Grows(g, b0, b2, log0, log2, n)
  {
    forall k | |log0| <= k < |log2| ensures Reaches(g, b0, n, log2[k].node) {
      if k < |log1| {
        assert log2[k] == log1[k];
      } else {
        ReachesEarlier(g, b0, b1, n, log2[k].node);
      }
    }
  }

  lemma GrowsSince(g: seq<Rule>, b0: seq<bool>, b1: seq<bool>, log0: seq<Event>, log1: seq<Event>, d: nat)
    requires |b0| == |b1| == |g| && Grows(g, b0, b1, log0, log1, d)
    ensures Since(g, log0, log1, Some(d))
  {
    forall k | |log0| <= k < |log1| ensures LeadsTo(g, d, log1[k].node) {
      ReachesEarlier(g, seq(|g|, _ => false), b0, d, log1[k].node);
    }
  }

  /** While only children are being visited, heights fall along the nodes in progress. */
  lemma {:induction false} HeightsFall(g: seq<Rule>, built: seq<bool>, calls: seq<nat>, path: seq<nat>, lo: nat,
                                       hi: nat)
    requires WellFormed(g) && |built| == |calls| == |g| && StackOk(g, built, calls, path)
    requires lo <= hi < |path|
    requires forall k | lo <= k < hi :: calls[path[k]] == 0
    ensures g[path[hi]].height <= g[path[lo]].height
    decreases hi
  {
    if lo < hi {
      HeightsFall(g, built, calls, path, lo, hi - 1);
      assert FirstOpen(g, built, path[hi - 1], path[hi]);
    }
  }

  /** A node asked for while in progress has a running build action at or above it on the stack. */
  lemma Locate(g: seq<Rule>, built: seq<bool>, calls: seq<nat>, path: seq<nat>, d: nat) returns (at: nat, m: nat)
    requires WellFormed(g) && |built| == |calls| == |g| && StackOk(g, built, calls, path)
    requires path != [] && d in path
    requires calls[path[|path| - 1]] == 0 ==> d in g[path[|path| - 1]].children
    ensures at <= m < |path| && path[at] == d && InBuild(g, built, calls, path[m])
  {
    at :| 0 <= at < |path| && path[at] == d;
    if m0 :| at <= m0 < |path| && calls[path[m0]] != 0 {
      m := m0;
    } else {
      HeightsFall(g, built, calls, path, at, |path| - 1);
      assert false;
    }
  }

  /** The lists of node_consumes_resolve after `k` requests; `i` is the place of the next one. */
  ghost predicate LookedAt(deps: seq<Dep>, k: nat, i: int, rlist: seq<Dep>, found: seq<string>) {
    && k <= |deps| && i == |NotCached(deps[..k])| && rlist == NotCached(deps[..k]) + deps[k..]
    && found == CachePaths(deps[..k])
  }

  lemma LookOn(deps: seq<Dep>, k: nat, i: int, rlist: seq<Dep>, found: seq<string>)
    requires LookedAt(deps, k, i, rlist, found) && i < |rlist|
    ensures k < |deps| && 0 <= i && rlist[i] == deps[k]
    ensures if deps[k].inCache then LookedAt(deps, k + 1, i, rlist[..i] + rlist[i + 1..], found + [deps[k].path])
            else LookedAt(deps, k + 1, i + 1, rlist, found)
  {
    TakeOff(deps, k, rlist, i);
    OneMore(deps, k);
    assert CachePaths(deps[..k]) + [] == CachePaths(deps[..k]);
  }

  lemma LookedAtAll(deps: seq<Dep>, k: nat, i: int, rlist: seq<Dep>, found: seq<string>)
    requires LookedAt(deps, k, i, rlist, found) && i >= |rlist|
    ensures k == |deps| && rlist == NotCached(deps) && found == CachePaths(deps)
  {
    assert deps[..|deps|] == deps;
  }

  /** The waiting list after request `k` has been looked at. */
  lemma TakeOff(deps: seq<Dep>, k: nat, rlist: seq<Dep>, i: nat)
    requires k < |deps| && i == |NotCached(deps[..k])|
    requires rlist == NotCached(deps[..k]) + deps[k..]
    ensures rlist[i] == deps[k]
    ensures deps[k].inCache ==>
              rlist[..i] + rlist[i + 1..] == NotCached(deps[..k + 1]) + deps[k + 1..] && |NotCached(deps[..k + 1])| == i
    ensures !deps[k].inCache ==>
              rlist == NotCached(deps[..k + 1]) + deps[k + 1..] && |NotCached(deps[..k + 1])| == i + 1
  {
    OneMore(deps, k);
    assert deps[k..] == [deps[k]] + deps[k + 1..];
  }

  lemma {:induction false} CachedOrWaiting(deps: seq<Dep>)
    ensures forall x | x in deps :: x.inCache || x in NotCached(deps)
  {
    if deps != [] {
      CachedOrWaiting(deps[1..]);
      assert deps == [deps[0]] + deps[1..];
    }
  }

  lemma {:induction false} NotCachedAre(deps: seq<Dep>)
    ensures forall x | x in NotCached(deps) :: x in deps && !x.inCache
  {
    if deps == [] {
    } else {
      NotCachedAre(deps[1..]);
    }
  }

  /** How the stack looks to child `i` of `n`; `at` and `m` as in `NodeBuild`. */
  lemma AskChild(g: seq<Rule>, built: seq<bool>, calls: seq<nat>, path: seq<nat>, n: nat, i: nat, at: int, m: int)
    returns (at1: int, m1: int)
    requires WellFormed(g) && |built| == |calls| == |g| && StackOk(g, built, calls, path)
    requires n < |g| && path != [] && !built[n] && i < |g[n].children|
    requires forall k | 0 <= k < i :: built[g[n].children[k]]
    requires at < 0 ==> path[|path| - 1] == n && calls[n] == 0
    requires at >= 0 ==> at <= m < |path| && path[at] == n && InBuild(g, built, calls, path[m])
    ensures var c := g[n].children[i];
      && (built[c] ==> at1 < 0)
      && (at >= 0 && !built[c] ==> at1 >= at)
      && (at1 < 0 ==> c !in path)
      && (at1 >= 0 ==> at1 <= m1 < |path| && path[at1] == c && InBuild(g, built, calls, path[m1]))
      && (at < 0 && at1 < 0 ==> Edge(g, n, c) && FirstOpen(g, built, n, c))
      && (at < 0 && at1 >= 0 ==> Edge(g, n, c))
  {
    var c := g[n].children[i];
    if built[c] {
      at1, m1 := -1, 0;
    } else if at >= 0 {
      assert calls[path[at]] == 0;
      assert FirstOpen(g, built, path[at], path[at + 1]);
      at1, m1 := at + 1, m;
    } else if c in path {
      at1, m1 := Locate(g, built, calls, path, c);
    } else {
      at1, m1 := -1, 0;
    }
  }

  /** A node in progress whose build action has not begun has a child that is not built. */
  lemma WaitsForChild(g: seq<Rule>, built: seq<bool>, calls: seq<nat>, path: seq<nat>, at: nat)
    requires WellFormed(g) && |built| == |calls| == |g| && StackOk(g, built, calls, path)
    requires at < |path| - 1 && calls[path[at]] == 0
    ensures exists i | 0 <= i < |g[path[at]].children| :: !built[g[path[at]].children[i]]
  {
    assert FirstOpen(g, built, path[at], path[at + 1]);
  }

  /** How the stack looks to a node asked for by the build action on top. */
  lemma AskOwner(g: seq<Rule>, built: seq<bool>, calls: seq<nat>, path: seq<nat>, d: nat) returns (at: int, m: int)
    requires WellFormed(g) && |built| == |calls| == |g| && StackOk(g, built, calls, path)
    requires path != [] && calls[path[|path| - 1]] != 0
    ensures at < 0 ==> d !in path
    ensures at >= 0 ==> at <= m < |path| && path[at] == d && InBuild(g, built, calls, path[m])
  {
    if d in path {
      at, m := Locate(g, built, calls, path, d);
    } else {
      at, m := -1, 0;
    }
  }

  /** Entering a node that waits for nothing yet. */
  lemma Push(g: seq<Rule>, built: seq<bool>, calls: seq<nat>, path: seq<nat>, n: nat)
    requires WellFormed(g) && |built| == |calls| == |g| && StackOk(g, built, calls, path)
    requires n < |g| && n !in path && !built[n]
    requires path != [] ==>
               && Edge(g, path[|path| - 1], n)
               && (calls[path[|path| - 1]] == 0 ==> FirstOpen(g, built, path[|path| - 1], n))
    ensures StackOk(g, built, calls, path + [n]) && calls[n] == 0
  {
  }

  /** The children are done: the node's own build action may begin. */
  lemma Begin(g: seq<Rule>, built: seq<bool>, calls: seq<nat>, path: seq<nat>, n: nat)
    requires WellFormed(g) && |built| == |calls| == |g| && n < |g|
    requires StackOk(g, built, calls, path + [n]) && calls[n] == 0 && g[n].hasBuild
    requires forall i | 0 <= i < |g[n].children| :: built[g[n].children[i]]
    ensures StackOk(g, built, calls[n := 1], path + [n]) && InBuild(g, built, calls[n := 1], n)
  {
    var path' := path + [n];
    assert path'[|path|] == n;
    forall x: nat | x < |g| && calls[n := 1][x] != 0 ensures x in path' && InBuild(g, built, calls[n := 1], x) {
    }
  }

  /** A rule without a build action depends on its children only. */
  lemma NoOtherDeps(g: seq<Rule>, built: seq<bool>, log: seq<Event>, n: nat)
    requires WellFormed(g) && LogMatches(g, built, log) && n < |g| && !g[n].hasBuild
    requires forall i | 0 <= i < |g[n].children| :: built[g[n].children[i]]
    ensures DepsFinished(g, n, log)
  {
    forall d: nat | Edge(g, n, d) ensures Finish(d) in log {
      var i :| 0 <= i < |g[n].children| && g[n].children[i] == d;
      assert built[g[n].children[i]];
    }
  }

  /** Leaving a node: it is built now, and the nodes waiting for it are as they were. */
  lemma Pop(g: seq<Rule>, built: seq<bool>, calls: seq<nat>, calls': seq<nat>, path: seq<nat>, n: nat)
    requires WellFormed(g) && |built| == |calls| == |g| && n < |g|
    requires StackOk(g, built, calls, path + [n]) && calls' == calls[n := 0]
    ensures StackOk(g, built[n := true], calls', path)
  {
    var path' := path + [n];
    assert forall k | 0 <= k < |path| :: path'[k] == path[k];
    assert path'[|path|] == n;
    forall k | 0 <= k < |path| - 1 && calls'[path[k]] == 0
      ensures FirstOpen(g, built[n := true], path[k], path[k + 1])
    {
      assert calls[path'[k]] == 0;
      assert FirstOpen(g, built, path'[k], path'[k + 1]);
    }
    if path != [] {
      forall k | 0 <= k < |path| - 1 ensures Edge(g, path[k], path[k + 1]) {
        assert Edge(g, path'[k], path'[k + 1]);
      }
    }
    forall x: nat | x < |g| ensures calls'[x] == 0 || (x in path && InBuild(g, built[n := true], calls', x)) {
      if calls'[x] != 0 { assert x in path' && x != n; }
    }
  }

  /** Adding a legal new event about a node that is not built. */
  lemma Extends(g: seq<Rule>, log: seq<Event>, e: Event)
    requires Distinct(log) && Ordered(g, log) && e !in log && Allowed(g, e, log)
    ensures Distinct(log + [e]) && Ordered(g, log + [e])
  {
    var log' := log + [e];
    forall k | 0 <= k < |log'| ensures Allowed(g, log'[k], log'[..k]) {
      assert log'[..k] == log[..k];
      if k == |log| { assert log[..k] == log; }
    }
  }

  /** Doing the node's work, when it has a build action, keeps the log legal. */
  lemma Works(g: seq<Rule>, built: seq<bool>, log: seq<Event>, n: nat)
    requires WellFormed(g) && LogMatches(g, built, log) && n < |g| && !built[n]
    requires DepsFinished(g, n, log) && g[n].hasBuild && !Unresolvable(g[n])
    ensures Distinct(log + [Work(n, Inputs(g[n]))]) && Ordered(g, log + [Work(n, Inputs(g[n]))])
  {
    var w := Work(n, Inputs(g[n]));
    if w in log {
      assert false;
    }
    Extends(g, log, w);
  }

  /** The events that end a node keep the log legal. */
  lemma Ends(g: seq<Rule>, built: seq<bool>, log: seq<Event>, n: nat, work: seq<Event>)
    requires WellFormed(g) && LogMatches(g, built, log) && n < |g| && !built[n]
    requires DepsFinished(g, n, log) && (g[n].hasBuild ==> !Unresolvable(g[n]))
    requires work == if g[n].hasBuild then [Work(n, Inputs(g[n]))] else []
    ensures LogMatches(g, built[n := true], log + work + [Finish(n)])
  {
    var log1 := log + work;
    assert Distinct(log1) && Ordered(g, log1) by {
      if g[n].hasBuild { Works(g, built, log, n); } else { assert log1 == log; }
    }
    assert Finish(n) !in log1;
    assert Allowed(g, Finish(n), log1) by {
      assert forall e | e in log :: e in log1;
      if g[n].hasBuild { assert log1[|log|] == Work(n, Inputs(g[n])); }
    }
    Extends(g, log1, Finish(n));
    FlagsFollow(g, built, log, n, work);
  }

  lemma FlagsFollow(g: seq<Rule>, built: seq<bool>, log: seq<Event>, n: nat, work: seq<Event>)
    requires |built| == |g| && n < |g|
    requires forall x | 0 <= x < |g| :: built[x] <==> Finish(x) in log
    requires forall k | 0 <= k < |log| :: log[k].node < |g| && built[log[k].node]
    requires forall e | e in work :: e.Work? && e.node == n
    ensures var log' := log + work + [Finish(n)]; var built' := built[n := true];
      && (forall x | 0 <= x < |g| :: built'[x] <==> Finish(x) in log')
      && (forall k | 0 <= k < |log'| :: log'[k].node < |g| && built'[log'[k].node])
  {
    var log' := log + work + [Finish(n)];
    assert log'[|log'| - 1] == Finish(n);
    forall x: nat | x < |g| ensures built[n := true][x] <==> Finish(x) in log' {
      assert Finish(x) in log' <==> Finish(x) in log || Finish(x) in work || x == n;
    }
    forall k | 0 <= k < |log'| ensures log'[k].node < |g| && built[n := true][log'[k].node] {
      if |log| <= k < |log| + |work| { assert log'[k] in work; }
    }
  }

  /** A node ends: all that `NodeBuild` promises follows. */
  lemma Conclude(g: seq<Rule>, b0: seq<bool>, built: seq<bool>, calls: seq<nat>,
                 log0: seq<Event>, log: seq<Event>, work: seq<Event>, path: seq<nat>, n: nat)
    requires WellFormed(g) && |b0| == |built| == |calls| == |g| && n < |g| && !b0[n]
    requires StackOk(g, built, calls, path + [n]) && LogMatches(g, built, log)
    requires DepsFinished(g, n, log) && (g[n].hasBuild ==> !Unresolvable(g[n]))
    requires work == if g[n].hasBuild then [Work(n, Inputs(g[n]))] else []
    requires Grows(g, b0, built, log0, log + work, n)
    ensures StackOk(g, built[n := true], calls[n := 0], path)
    ensures LogMatches(g, built[n := true], log + work + [Finish(n)])
    ensures Grows(g, b0, built[n := true], log0, log + work + [Finish(n)], n)
  {
    assert (path + [n])[|path|] == n;
    Ends(g, built, log, n, work);
    Pop(g, built, calls, calls[n := 0], path, n);
    GrowsToEnd(g, b0, built, log0, log + work, n);
  }

  lemma GrowsToEnd(g: seq<Rule>, b0: seq<bool>, built: seq<bool>, log0: seq<Event>, log: seq<Event>, n: nat)
    requires |b0| == |built| == |g| && n < |g| && !b0[n] && Grows(g, b0, built, log0, log, n)
    ensures Grows(g, b0, built[n := true], log0, log + [Finish(n)], n)
  {
    ReachesSelf(g, b0, n);
  }

  /** Once all that was asked for is built, every dependency is finished. */
  lemma AllAsked(g: seq<Rule>, built: seq<bool>, log: seq<Event>, n: nat)
    requires WellFormed(g) && LogMatches(g, built, log) && n < |g|
    requires forall i | 0 <= i < |g[n].children| :: built[g[n].children[i]]
    requires ProducersBuilt(built, g[n].sources, |g[n].sources|)
    requires g[n].preferSources || OwnersBuilt(built, g[n].consumes, |g[n].consumes|)
    requires g[n].preferSources || OwnersBuilt(built, g[n].items, |g[n].items|)
    ensures DepsFinished(g, n, log)
  {
    forall d: nat | Edge(g, n, d) ensures Finish(d) in log {
      if d in g[n].children {
        var i :| 0 <= i < |g[n].children| && g[n].children[i] == d;
        assert built[g[n].children[i]];
      }
    }
  }

  lemma AllThere(r: Rule)
    requires forall j | 0 <= j < |r.sources| && !r.sources[j].present :: r.sources[j].owner.Some?
    requires forall missing :: !Missing(r.preferSources, r.consumes, missing)
    requires forall missing :: !Missing(r.preferSources, r.items, missing)
    ensures !Unresolvable(r)
  {
  }

  /** What a build that ended normally did, node by node. */
  lemma WhatRan(g: seq<Rule>, b0: seq<bool>, built: seq<bool>, log0: seq<Event>, log: seq<Event>, root: nat)
    requires WellFormed(g) && LogMatches(g, b0, log0) && LogMatches(g, built, log)
    requires Grows(g, b0, built, log0, log, root) && root < |g| && built[root]
    ensures forall x | 0 <= x < |g| && !b0[x] ::
              && (built[x] <==> Reaches(g, b0, root, x))
              && Runs(log, x) == if built[x] && g[x].hasBuild then 1 else 0
    ensures forall x | 0 <= x < |g| && b0[x] :: built[x] && Runs(log, x) == Runs(log0, x)
  {
    forall x: nat | x < |g|
      ensures !b0[x] ==> (built[x] <==> Reaches(g, b0, root, x))
      ensures Runs(log, x) == if built[x] && g[x].hasBuild then 1 else 0
    {
      RanIffBuilt(g, built, log, x);
      if !b0[x] && built[x] {
        var k :| 0 <= k < |log| && log[k] == Finish(x);
        assert forall i | 0 <= i < |log0| :: log0[i] == log[i];
        if k < |log0| {
          assert false;
        }
      }
      if Reaches(g, b0, root, x) {
        FinishedIsClosed(g, b0, log, root, x);
      }
    }
    forall x: nat | x < |g| && b0[x] ensures Runs(log, x) == Runs(log0, x) {
      RanIffBuilt(g, b0, log0, x);
    }
  }

  /** Only what is asked for is built. */
  lemma NothingMore(g: seq<Rule>, b0: seq<bool>, built: seq<bool>, root: nat)
    requires |b0| == |built| == |g| && forall x | 0 <= x < |g| && !b0[x] :: built[x] <==> Reaches(g, b0, root, x)
    ensures forall x: nat | x < |g| && built[x] && !b0[x] && x != root ::
              exists y: nat :: y < |g| && built[y] && !b0[y] && Asks(g[y], x)
  {
    forall x: nat | x < |g| && built[x] && !b0[x] && x != root
      ensures exists y: nat :: y < |g| && built[y] && !b0[y] && Asks(g[y], x)
    {
      ReachedIsAsked(g, b0, root, x);
      var y: nat :| y < |g| && Reaches(g, b0, root, y) && Asks(g[y], x);
      LastIsOpen(g, b0, root, y);
    }
  }

  lemma LastIsOpen(g: seq<Rule>, b: seq<bool>, n: nat, x: nat)
    requires |b| == |g| && Reaches(g, b, n, x)
    ensures x < |g| && !b[x]
  {
  }

  /** A build that ended normally met no rule with a missing input. */
  lemma NothingMissed(g: seq<Rule>, b0: seq<bool>, built: seq<bool>, log: seq<Event>, root: nat)
    requires |b0| == |g| && LogMatches(g, built, log) && root < |g| && built[root]
    ensures forall x | 0 <= x < |g| && Reaches(g, b0, root, x) :: !Unresolvable(g[x])
  {
    forall x | 0 <= x < |g| && Reaches(g, b0, root, x) ensures !Unresolvable(g[x]) {
      FinishedIsClosed(g, b0, log, root, x);
      var k :| 0 <= k < |log| && log[k] == Finish(x);
      assert Allowed(g, log[k], log[..k]);
      if g[x].hasBuild {
        var j :| 0 <= j < k && log[j] == Work(x, Inputs(g[x]));
        assert Allowed(g, log[j], log[..j]);
      }
    }
  }

  lemma RanIffBuilt(g: seq<Rule>, built: seq<bool>, log: seq<Event>, x: nat)
    requires LogMatches(g, built, log) && x < |g|
    ensures Runs(log, x) == if built[x] && g[x].hasBuild then 1 else 0
  {
    RunsOnce(g, log, x);
    if built[x] {
      var k :| 0 <= k < |log| && log[k] == Finish(x);
      assert Allowed(g, log[k], log[..k]);
      if Work(x, Inputs(g[x])) in log {
        var j :| 0 <= j < |log| && log[j] == Work(x, Inputs(g[x]));
        assert Allowed(g, log[j], log[..j]);
      }
    }
  }

  // ---------------------------------------------------------------- the scheduler

  class Session {
    const script: seq<Rule>
    var built: seq<bool>       // NODE_FLG_BUILT
    var buildCalls: seq<nat>   // bld_calls
    ghost var log: seq<Event>

    constructor (script: seq<Rule>)
      requires WellFormed(script)
      ensures this.script == script && Valid([]) && log == []
      ensures forall i | 0 <= i < |script| :: !built[i]
    {
      this.script := script;
      this.built := seq(|script|, _ => false);
      this.buildCalls := seq(|script|, _ => 0);
      this.log := [];
    }

    ghost predicate Valid(path: seq<nat>)
      reads this
    {
      && WellFormed(script)
      && |built| == |buildCalls| == |script|
      && LogMatches(script, built, log)
      && StackOk(script, built, buildCalls, path)
      && InTurn(script, log)
    }

    /**
     A whole build of `root`, with no other build in progress. It ends normally if and only if
     no cycle and no missing input can be reached. Then exactly the nodes that `root` reaches have been finished and
     exactly their build actions have run, once each, told all their inputs in request order, when all that
     they need was there. Otherwise the node reported lies on a cycle that can be reached, or the path reported
     is requested by that node and found nowhere; and when no input is missing, a cycle is reported.
     */
    method Build(root: nat) returns (o: Outcome)
      requires root < |script| && Valid([])
      modifies this
      ensures |built| == |script|
      ensures o.Done? ==> Valid([]) && built[root] && old(log) <= log && !CycleAhead(script, old(built), root)
      ensures o.Done? ==> forall x | 0 <= x < |script| && !old(built[x]) ::
                  && (built[x] <==> Reaches(script, old(built), root, x))
                  && Runs(log, x) == if built[x] && script[x].hasBuild then 1 else 0
      ensures o.Done? ==> forall x | 0 <= x < |script| && old(built[x]) :: built[x] && Runs(log, x) == old(Runs(log, x))
      ensures o.Done? ==> forall k | 0 <= k < |log| :: Lawful(script, log[k], log[..k])
      ensures o.Done? ==> InTurn(script, log)
      ensures o.Done? ==> forall x: nat | x < |script| && built[x] && !old(built[x]) && x != root ::
                  exists y: nat :: y < |script| && built[y] && !old(built[y]) && Asks(script[y], x)
      ensures o.Done? <==>
                && !CycleAhead(script, old(built), root)
                && forall x | 0 <= x < |script| && Reaches(script, old(built), root, x) :: !Unresolvable(script[x])
      ensures o.Cyclic? ==> CycleAhead(script, old(built), root)
                            && exists w :: Walk(script, old(built), w) && w[0] == root && Circles(w, o.node)
      ensures o.Unresolved? ==>
                && o.node < |script| && FoundNowhere(script[o.node], o.path)
                && Reaches(script, old(built), root, o.node)
      ensures (forall x | 0 <= x < |script| && Reaches(script, old(built), root, x) :: !Unresolvable(script[x])) ==>
                (o.Cyclic? <==> CycleAhead(script, old(built), root))
    {
      o := NodeBuild(root, [], -1, 0);
      if o.Done? {
        FinishedMeansAcyclic(script, old(built), log, root);
        WhatRan(script, old(built), built, old(log), log, root);
        forall k | 0 <= k < |log| ensures Lawful(script, log[k], log[..k]) {
          AllowedIsLawful(script, log[k], log[..k]);
        }
        NothingMissed(script, old(built), built, log, root);
        NothingMore(script, old(built), built, root);
      } else if o.Cyclic? {
        ghost var w :| [] + [root] <= w && Walk(script, old(built), w) && Circles(w, o.node);
        assert w[0] == root && Looping(w);
      }
    }

    /**
     node_build. The ghost arguments only serve the proof: `path` is the stack of nodes in progress,
     and when `n` is one of them, `at` is its place and `m` the place of a running build action above it.
     */
    method NodeBuild(n: nat, ghost path: seq<nat>, ghost at: int, ghost m: int) returns (o: Outcome)
      requires n < |script| && Valid(path)
      requires at < 0 ==> n !in path
      requires at < 0 && path != [] && !built[n] ==>
                 && Edge(script, path[|path| - 1], n)
                 && (buildCalls[path[|path| - 1]] == 0 ==> FirstOpen(script, built, path[|path| - 1], n))
      requires at >= 0 ==> at <= m < |path| && path[at] == n && InBuild(script, built, buildCalls, path[m])
      modifies this
      ensures |built| == |script|
      ensures old(built[n]) ==> o.Done? && built == old(built) && buildCalls == old(buildCalls) && log == old(log)
      ensures at >= 0 ==> o.Cyclic? && o.node in path[at..]
      ensures o.Done? ==> Valid(path) && built[n] && buildCalls == old(buildCalls)
      ensures o.Done? ==> Grows(script, old(built), built, old(log), log, n)
      ensures at < 0 ==> Explained(script, old(built), path + [n], n, o)
      decreases Idle(script, built, buildCalls), 0, script[n].height, 2
    {
      if !built[n] {
        ghost var inside := if at < 0 then path + [n] else path;
        if at < 0 { Push(script, built, buildCalls, path, n); }
        o := BuildSubnodes(n, inside, at, m);
        if !o.Done? {
          return;
        }
        if script[n].hasBuild {
          o := CallBuild(n, path, old(built), old(log));
          if !o.Done? {
            return;
          }
        } else {
          NoOtherDeps(script, built, log, n);
          Conclude(script, old(built), built, buildCalls, old(log), log, [], path, n);
          ChildrenVisited(script, n, old(log), log);
          TurnMore(script, log, Finish(n));
          assert log == log + [] && buildCalls[n := 0] == buildCalls;
        }
        assert buildCalls == old(buildCalls);
        SetBuilt(n, path);
      }
      o := Done;
    }

    /** The counted call of a build action: a second entry is a cycle. */
    method CallBuild(n: nat, ghost path: seq<nat>, ghost b0: seq<bool>, ghost log0: seq<Event>) returns (o: Outcome)
      requires n < |script| && WellFormed(script) && |built| == |buildCalls| == |script| && !built[n]
               && script[n].hasBuild
      requires buildCalls[n] == 0 ==>
                 && Valid(path + [n]) && |b0| == |script| && Grows(script, b0, built, log0, log, n)
                 && AllServed(script, log0, log, ChildRequests(script[n]))
                 && forall i | 0 <= i < |script[n].children| :: built[script[n].children[i]]
      modifies this
      ensures |built| == |script|
      ensures if old(buildCalls[n]) > 0 then o == Cyclic(n) else Explained(script, b0, path + [n], n, o)
      ensures o.Done? ==>
                && buildCalls == old(buildCalls)
                && StackOk(script, built[n := true], buildCalls, path)
                && LogMatches(script, built[n := true], log + [Finish(n)])
                && InTurn(script, log + [Finish(n)])
                && Grows(script, b0, built[n := true], log0, log + [Finish(n)], n)
      decreases Idle(script, built, buildCalls), 0, script[n].height, 1
    {
      buildCalls := buildCalls[n := buildCalls[n] + 1];
      if buildCalls[n] > 1 {
        return Cyclic(n);
      }
      StartsWork(script, built, built, old(buildCalls), n);
      assert buildCalls[n := 0] == old(buildCalls);
      o := RunCounted(n, path, b0, log0);
      if !o.Done? {
        return;
      }
      assert buildCalls[n := 0] == old(buildCalls);
      buildCalls := buildCalls[n := buildCalls[n] - 1];
    }

    /** n->flags |= NODE_FLG_BUILT */
    method SetBuilt(n: nat, ghost path: seq<nat>)
      requires n < |script| && WellFormed(script) && |built| == |buildCalls| == |script|
      requires LogMatches(script, built[n := true], log + [Finish(n)]) && InTurn(script, log + [Finish(n)])
      requires StackOk(script, built[n := true], buildCalls, path)
      modifies this
      ensures Valid(path) && buildCalls == old(buildCalls)
      ensures built == old(built)[n := true] && log == old(log) + [Finish(n)]
    {
      built := built[n := true];
      log := log + [Finish(n)];
    }

    /** The build action of a node entered once: between `bld_calls++` and `bld_calls--`. */
    method RunCounted(n: nat, ghost path: seq<nat>, ghost b0: seq<bool>, ghost log0: seq<Event>) returns (o: Outcome)
      requires n < |script| && WellFormed(script) && |built| == |buildCalls| == |script| && !built[n]
      requires buildCalls[n] == 1 && script[n].hasBuild && LogMatches(script, built, log)
      requires StackOk(script, built, buildCalls[n := 0], path + [n])
      requires forall i | 0 <= i < |script[n].children| :: built[script[n].children[i]]
      requires |b0| == |script|
      requires Grows(script, b0, built, log0, log, n)
      requires InTurn(script, log) && AllServed(script, log0, log, ChildRequests(script[n]))
      modifies this
      ensures |built| == |script|
      ensures o.Done? ==>
                && buildCalls == old(buildCalls)
                && StackOk(script, built[n := true], buildCalls[n := 0], path)
                && LogMatches(script, built[n := true], log + [Finish(n)])
                && InTurn(script, log + [Finish(n)])
                && Grows(script, b0, built[n := true], log0, log + [Finish(n)], n)
      ensures Explained(script, b0, path + [n], n, o)
      decreases Idle(script, built, buildCalls), 1, 0, 5
    {
      ghost var b1, log1 := built, log;
      Begin(script, built, buildCalls[n := 0], path, n);
      assert buildCalls[n := 0][n := 1] == buildCalls;
      o := RunBuild(n, path + [n], log0);
      if !o.Done? {
        ExplainedEarlier(script, b0, b1, path + [n], n, o);
        return;
      }
      GrowsMore(script, b0, b1, built, log0, log1, log, n);
      assert log == log[..|log| - 1] + log[|log| - 1..];
      Conclude(script, b0, built, buildCalls, log0, log[..|log| - 1], log[|log| - 1..], path, n);
      TurnMore(script, log, Finish(n));
    }

    /** The first `i` requests of `n` have been served, since the state given. */
    ghost predicate ServesAt(n: nat, path: seq<nat>, asks: seq<Option<nat>>, i: int, built1: seq<bool>,
                             calls1: seq<nat>,
                             log1: seq<Event>, z: nat)
      reads this
    {
      z == 0 ==>
        && Valid(path) && buildCalls == calls1 && |built1| == |script|
        && Grows(script, built1, built, log1, log, n)
        && 0 <= i <= |asks| && AllServed(script, log1, log, asks[..i])
    }

    ghost predicate Serving(n: nat, path: seq<nat>, asks: seq<Option<nat>>, i: int, built1: seq<bool>,
                            calls1: seq<nat>, log1: seq<Event>)
      reads this
    {
      forall z: nat :: ServesAt(n, path, asks, i, built1, calls1, log1, z)
    }

    /** One round of _build_subnodes. */
    method BuildChild(n: nat, i: nat, ghost path: seq<nat>, ghost at: int, ghost m: int, ghost b0: seq<bool>,
                      ghost log0: seq<Event>) returns (o: Outcome)
      requires n < |script| && Valid(path) && path != [] && i < |script[n].children|
      requires at < 0 ==> path[|path| - 1] == n && buildCalls[n] == 0
      requires at >= 0 ==> at <= m < |path| && path[at] == n && InBuild(script, built, buildCalls, path[m])
      requires forall k | 0 <= k < i :: built[script[n].children[k]]
      requires |b0| == |script| && !b0[n] && !built[n] && Grows(script, b0, built, log0, log, n)
      modifies this
      ensures |built| == |script|
      ensures at >= 0 && o.Done? ==> built == old(built) && log == old(log)
      ensures at >= 0 && old(built[script[n].children[i]]) ==> o.Done?
      ensures at >= 0 && !o.Done? ==> o.Cyclic? && o.node in path[at..]
      ensures o.Done? ==>
                && Valid(path) && buildCalls == old(buildCalls) && built[script[n].children[i]]
                && (forall k | 0 <= k < |script| :: old(built[k]) ==> built[k])
                && Since(script, old(log), log, ChildRequests(script[n])[i])
      ensures o.Done? ==> Grows(script, b0, built, log0, log, n)
      ensures at < 0 ==> Explained(script, b0, path, n, o)
      decreases Idle(script, built, buildCalls), 0, script[n].height, 0
    {
      var c := script[n].children[i];
      ghost var b1, log1 := built, log;
      ghost var at1, m1 := AskChild(script, built, buildCalls, path, n, i, at, m);
      o := NodeBuild(c, path, at1, m1);
      if !o.Done? {
        if at < 0 && at1 >= 0 { ReentryLoops(script, b0, b1, path, c, at1, o.node); }
        if at >= 0 { assert path[at..][at1 - at..] == path[at1..]; }
        if at < 0 && at1 < 0 { ExplainedStep(script, b0, b1, path, n, c, o); }
        return;
      }
      GrowsStep(script, b0, b1, built, log0, log1, log, n, c);
      GrowsSince(script, b1, built, log1, log, c);
    }

    /** _build_subnodes */
    method BuildSubnodes(n: nat, ghost path: seq<nat>, ghost at: int, ghost m: int) returns (o: Outcome)
      requires n < |script| && Valid(path) && path != [] && !built[n]
      requires at < 0 ==> path[|path| - 1] == n && buildCalls[n] == 0
      requires at >= 0 ==> at <= m < |path| && path[at] == n && InBuild(script, built, buildCalls, path[m])
      modifies this
      ensures |built| == |script|
      ensures at >= 0 && old(buildCalls[n]) != 0 ==>
                o.Done? && built == old(built) && buildCalls == old(buildCalls) && log == old(log)
      ensures at >= 0 && old(buildCalls[n]) == 0 ==> o.Cyclic? && o.node in path[at..]
      ensures o.Done? ==>
                && Valid(path) && buildCalls == old(buildCalls)
                && (forall i | 0 <= i < |script[n].children| :: built[script[n].children[i]])
                && AllServed(script, old(log), log, ChildRequests(script[n]))
      ensures o.Done? ==> Grows(script, old(built), built, old(log), log, n)
      ensures at < 0 ==> Explained(script, old(built), path, n, o)
      decreases Idle(script, built, buildCalls), 0, script[n].height, 1
    {
      var i := 0;
      NoRequestYet(script, log, ChildRequests(script[n]));
      while i < |script[n].children|
        invariant 0 <= i <= |script[n].children| && |built| == |script|
        invariant Serving(n, path, ChildRequests(script[n]), i, old(built), old(buildCalls), old(log))
        invariant forall k | 0 <= k < i :: built[script[n].children[k]]
        invariant at >= 0 ==> built == old(built) && log == old(log)
      {
        assert ServesAt(n, path, ChildRequests(script[n]), i, old(built), old(buildCalls), old(log), 0);
        ghost var log1 := log;
        o := BuildChild(n, i, path, at, m, old(built), old(log));
        if !o.Done? {
          return;
        }
        ServedOne(script, old(log), log1, log, ChildRequests(script[n]), i);
        i := i + 1;
      }
      assert ServesAt(n, path, ChildRequests(script[n]), i, old(built), old(buildCalls), old(log), 0);
      NoRequestLeft(script, old(log), log, ChildRequests(script[n]), i);
      if at >= 0 && buildCalls[n] == 0 {
        WaitsForChild(script, built, buildCalls, path, at);
        assert false;
      }
      o := Done;
    }

    /** n->build(n): resolve the inputs, then do the rule's own work. */
    method RunBuild(n: nat, ghost path: seq<nat>, ghost log0: seq<Event>) returns (o: Outcome)
      requires n < |script| && Valid(path) && path != [] && path[|path| - 1] == n
      requires InBuild(script, built, buildCalls, n) && AllServed(script, log0, log, ChildRequests(script[n]))
      modifies this
      ensures |built| == |script|
      ensures o.Done? ==>
                && buildCalls == old(buildCalls) && StackOk(script, built, buildCalls, path)
                && log != [] && log[|log| - 1] == Work(n, Inputs(script[n]))
                && LogMatches(script, built, log[..|log| - 1]) && InTurn(script, log)
                && DepsFinished(script, n, log[..|log| - 1]) && !Unresolvable(script[n])
      ensures o.Done? ==> Grows(script, old(built), built, old(log), log, n)
      ensures Explained(script, old(built), path, n, o)
      decreases Idle(script, built, buildCalls), 1, 0, 4
    {
      var inputs;
      o, inputs := ResolveInputs(n, path);
      if o.Done? {
        GrowsByOne(script, old(built), built, old(log), log, n, Work(n, inputs));
        ghost var before := log;
        AllVisited(script, n, log0, old(log), log);
        TurnMore(script, log, Work(n, inputs));
        log := log + [Work(n, inputs)];
        assert log[..|log| - 1] == before;
      }
    }

    /** Everything a rule asks for before it does its work. */
    method ResolveInputs(n: nat, ghost path: seq<nat>) returns (o: Outcome, inputs: seq<string>)
      requires n < |script| && Valid(path) && path != [] && path[|path| - 1] == n
      requires InBuild(script, built, buildCalls, n)
      modifies this
      ensures |built| == |script|
      ensures o.Done? ==> Valid(path) && buildCalls == old(buildCalls)
      ensures o.Done? ==> inputs == Inputs(script[n]) && Told(script[n], inputs)
      ensures o.Done? ==> AllServed(script, old(log), log, OwnRequests(script[n]))
      ensures o.Done? ==> DepsFinished(script, n, log) && !Unresolvable(script[n])
      ensures o.Done? ==> Grows(script, old(built), built, old(log), log, n)
      ensures Explained(script, old(built), path, n, o)
      decreases Idle(script, built, buildCalls), 1, 0, 3
    {
      inputs := [];
      o := BuildSources(n, path);
      if o.Done? {
        var consumed;
        ghost var b1, log1 := built, log;
        o, consumed := ConsumesResolve(n, script[n].consumes, path, old(built), old(log));
        if o.Done? {
          AllStillProduced(b1, built, script[n].sources);
          ghost var b2, log2 := built, log;
          var items;
          o, items := ConsumesResolve(n, script[n].items, path, old(built), old(log));
          if o.Done? {
            inputs := consumed + items;
            InputsAreTold(script[n]);
            OwnServed(script, n, old(log), log1, log2, log);
            AllStillProduced(b2, built, script[n].sources);
            AllStillBuilt(b2, built, script[n].consumes);
            AllAsked(script, built, log, n);
            AllThere(script[n]);
          }
        }
      }
    }

    /** The part of _cc_build that makes absent sources, by asking the rules that produce them. */
    method BuildSources(n: nat, ghost path: seq<nat>) returns (o: Outcome)
      requires n < |script| && Valid(path) && path != [] && path[|path| - 1] == n
      requires InBuild(script, built, buildCalls, n)
      modifies this
      ensures |built| == |script|
      ensures o.Done? ==>
                && Valid(path) && buildCalls == old(buildCalls)
                && SourcesThere(built, script[n].sources, |script[n].sources|)
                && AllServed(script, old(log), log, SourceRequests(script[n].sources))
      ensures o.Done? ==> Grows(script, old(built), built, old(log), log, n)
      ensures Explained(script, old(built), path, n, o)
      decreases Idle(script, built, buildCalls), 1, 0, 1
    {
      var i := 0;
      NoRequestYet(script, log, SourceRequests(script[n].sources));
      while i < |script[n].sources|
        invariant 0 <= i <= |script[n].sources| && |built| == |script|
        invariant Serving(n, path, SourceRequests(script[n].sources), i, old(built), old(buildCalls), old(log))
        invariant SourcesThere(built, script[n].sources, i)
      {
        assert ServesAt(n, path, SourceRequests(script[n].sources), i, old(built), old(buildCalls), old(log), 0);
        ghost var log1 := log;
        o := BuildSource(n, i, path, old(built), old(log));
        if !o.Done? {
          return;
        }
        ServedOne(script, old(log), log1, log, SourceRequests(script[n].sources), i);
        i := i + 1;
      }
      assert ServesAt(n, path, SourceRequests(script[n].sources), i, old(built), old(buildCalls), old(log), 0);
      NoRequestLeft(script, old(log), log, SourceRequests(script[n].sources), i);
      o := Done;
    }

    /** A source that is not there is made by the rule that owns it, if there is one. */
    method BuildSource(n: nat, i: nat, ghost path: seq<nat>, ghost b0: seq<bool>, ghost log0: seq<Event>)
      returns (o: Outcome)
      requires n < |script| && Valid(path) && path != [] && path[|path| - 1] == n
      requires InBuild(script, built, buildCalls, n) && i < |script[n].sources|
      requires SourcesThere(built, script[n].sources, i)
      requires |b0| == |script| && !b0[n] && Grows(script, b0, built, log0, log, n)
      modifies this
      ensures |built| == |script|
      ensures o.Done? ==> Valid(path) && buildCalls == old(buildCalls)
                          && SourcesThere(built, script[n].sources, i + 1)
                          && Since(script, old(log), log, SourceRequests(script[n].sources)[i])
      ensures o.Done? ==> Grows(script, b0, built, log0, log, n)
      ensures Explained(script, b0, path, n, o)
      decreases Idle(script, built, buildCalls), 1, 0, 0
    {
      var source := script[n].sources[i];
      o := Done;
      if !source.present {
        if source.owner.None? {
          ReachesSelf(script, b0, n);
          return Unresolved(n, source.path);
        }
        SourceEdge(script, n, i);
        o := BuildOwner(n, source.owner.value, path, b0, log0);
        if !o.Done? {
          return;
        }
      }
      StillProduced(old(built), built, script[n].sources, i);
    }

    /** One call of node_build for a rule that owns something `n` needs. */
    method BuildOwner(n: nat, d: nat, ghost path: seq<nat>, ghost b0: seq<bool>, ghost log0: seq<Event>)
                      returns (o: Outcome)
      requires n < |script| && Valid(path) && path != [] && path[|path| - 1] == n
      requires InBuild(script, built, buildCalls, n)
      requires d < |script| && Edge(script, n, d)
      requires |b0| == |script| && !b0[n]
      requires Grows(script, b0, built, log0, log, n)
      modifies this
      ensures |built| == |script|
      ensures o.Done? ==>
                && Valid(path) && built[d] && buildCalls == old(buildCalls)
                && (forall i | 0 <= i < |script| :: old(built[i]) ==> built[i])
                && Since(script, old(log), log, Some(d))
      ensures o.Done? ==> Grows(script, b0, built, log0, log, n)
      ensures Explained(script, b0, path, n, o)
      decreases Idle(script, built, buildCalls), 0, script[d].height, 3
    {
      ghost var at, m := AskOwner(script, built, buildCalls, path, d);
      o := NodeBuild(d, path, at, m);
      if o.Done? {
        GrowsStep(script, b0, old(built), built, log0, old(log), log, n, d);
        GrowsSince(script, old(built), built, old(log), log, d);
      } else if at < 0 {
        ExplainedStep(script, b0, old(built), path, n, d, o);
      } else {
        ReentryLoops(script, b0, old(built), path, d, at, o.node);
      }
    }

    /** node_consumes_resolve: products first, then what is left among the sources. */
    method ConsumesResolve(n: nat, deps: seq<Dep>, ghost path: seq<nat>, ghost b0: seq<bool>, ghost log0: seq<Event>)
      returns (o: Outcome, found: seq<string>)
      requires n < |script| && Valid(path) && path != [] && path[|path| - 1] == n
      requires InBuild(script, built, buildCalls, n)
      requires deps == script[n].consumes || deps == script[n].items
      requires |b0| == |script| && !b0[n]
      requires Grows(script, b0, built, log0, log, n)
      modifies this
      ensures |built| == |script|
      ensures o.Done? ==>
                && Valid(path) && buildCalls == old(buildCalls)
                && (forall i | 0 <= i < |script| :: old(built[i]) ==> built[i])
                && (script[n].preferSources || OwnersBuilt(built, deps, |deps|))
                && AllServed(script, old(log), log, DepRequests(script[n].preferSources, deps))
                && found == Found(script[n].preferSources, deps)
                && (forall missing :: !Missing(script[n].preferSources, deps, missing))
      ensures o.Done? ==> Grows(script, b0, built, log0, log, n)
      ensures Explained(script, b0, path, n, o)
      decreases Idle(script, built, buildCalls), 1, 0, 2
    {
      var rlist := deps;
      found := [];
      if script[n].preferSources {
        NothingServed(script, log, DepRequests(true, deps));
      } else {
        o, rlist, found := ResolveProducts(n, deps, path, b0, log0);
        if !o.Done? {
          return;
        }
        NotCachedAre(deps);
      }
      var missing, rest := ResolveSources(rlist);
      if missing.Some? {
        assert Missing(script[n].preferSources, deps, missing.value) by {
          var dep :| dep in rlist && !dep.inSources && dep.path == missing.value;
          assert dep in deps;
        }
        ReachesSelf(script, b0, n);
        return Unresolved(n, missing.value), found;
      }
      found := found + rest;
      if !script[n].preferSources { CachedOrWaiting(deps); }
      o := Done;
    }

    /** The owner of a requested product, if there is one, is built. */
    method BuildDep(n: nat, dep: Dep, ghost deps: seq<Dep>, ghost k: nat, ghost path: seq<nat>, ghost b0: seq<bool>,
                    ghost log0: seq<Event>)
      returns (o: Outcome)
      requires n < |script| && Valid(path) && path != [] && path[|path| - 1] == n
      requires InBuild(script, built, buildCalls, n) && !script[n].preferSources
      requires deps == script[n].consumes || deps == script[n].items
      requires k < |deps| && dep == deps[k] && OwnersBuilt(built, deps, k)
      requires |b0| == |script| && !b0[n]
      requires Grows(script, b0, built, log0, log, n)
      modifies this
      ensures |built| == |script|
      ensures o.Done? ==>
                && Valid(path) && buildCalls == old(buildCalls)
                && (forall i | 0 <= i < |script| :: old(built[i]) ==> built[i])
                && OwnersBuilt(built, deps, k + 1)
                && Since(script, old(log), log, dep.owner)
      ensures o.Done? ==> Grows(script, b0, built, log0, log, n)
      ensures Explained(script, b0, path, n, o)
      decreases Idle(script, built, buildCalls), 0, if dep.owner.Some?
                && dep.owner.value < |script| then script[dep.owner.value].height else 0, 4
    {
      o := Done;
      if dep.owner.Some? {
        DepEdge(script, n, deps, k);
        o := BuildOwner(n, dep.owner.value, path, b0, log0);
        if !o.Done? {
          return;
        }
      }
      StillBuilt(old(built), built, deps, k);
    }

    /** One request of that loop: its owner is built, and what is found then is taken off the list. */
    method TakeProduct(n: nat, ghost deps: seq<Dep>, i0: int, rlist0: seq<Dep>, found0: seq<string>, ghost k: nat,
                       ghost path: seq<nat>, ghost b0: seq<bool>, ghost log0: seq<Event>)
      returns (o: Outcome, i: int, rlist: seq<Dep>, found: seq<string>)
      requires n < |script| && Valid(path) && path != [] && path[|path| - 1] == n
      requires InBuild(script, built, buildCalls, n) && !script[n].preferSources
      requires deps == script[n].consumes || deps == script[n].items
      requires LookedAt(deps, k, i0, rlist0, found0) && i0 < |rlist0| && OwnersBuilt(built, deps, k)
      requires |b0| == |script| && !b0[n] && Grows(script, b0, built, log0, log, n)
      modifies this
      ensures |built| == |script|
      ensures o.Done? ==>
                && Valid(path) && buildCalls == old(buildCalls) && k < |deps|
                && (forall j | 0 <= j < |script| :: old(built[j]) ==> built[j])
                && OwnersBuilt(built, deps, k + 1) && LookedAt(deps, k + 1, i, rlist, found)
                && Since(script, old(log), log, DepRequests(false, deps)[k])
      ensures o.Done? ==> Grows(script, b0, built, log0, log, n)
      ensures Explained(script, b0, path, n, o)
      decreases Idle(script, built, buildCalls), 1, 0, 0
    {
      i, rlist, found := i0, rlist0, found0;
      LookOn(deps, k, i, rlist, found);
      var dep := rlist[i];
      o := BuildDep(n, dep, deps, k, path, b0, log0);
      if !o.Done? {
        return;
      }
      if dep.inCache {
        found := found + [dep.path];
        rlist := rlist[..i] + rlist[i + 1..];
        i := i - 1;
      }
      i := i + 1;
    }

    /** After `k` requests of that loop, which began in the state given. */
    ghost predicate LooksAt(n: nat, deps: seq<Dep>, path: seq<nat>, b0: seq<bool>, log0: seq<Event>,
                            built1: seq<bool>, calls1: seq<nat>, log1: seq<Event>, k: nat, i: int, rlist: seq<Dep>,
                            found: seq<string>, z: nat)
      reads this
    {
      z == 0 ==>
        && LookedAt(deps, k, i, rlist, found) && OwnersBuilt(built, deps, k)
        && Valid(path) && buildCalls == calls1 && |built1| == |script|
        && (forall j | 0 <= j < |script| :: built1[j] ==> built[j])
        && AllServed(script, log1, log, DepRequests(false, deps)[..k])
        && |b0| == |script| && Grows(script, b0, built, log0, log, n)
    }

    ghost predicate Looking(n: nat, deps: seq<Dep>, path: seq<nat>, b0: seq<bool>, log0: seq<Event>,
                            built1: seq<bool>, calls1: seq<nat>, log1: seq<Event>, k: nat, i: int, rlist: seq<Dep>,
                            found: seq<string>)
      reads this
    {
      forall z: nat :: LooksAt(n, deps, path, b0, log0, built1, calls1, log1, k, i, rlist, found, z)
    }

    /** First loop of node_consumes_resolve: what was found is taken off the list. */
    method ResolveProducts(n: nat, deps: seq<Dep>, ghost path: seq<nat>, ghost b0: seq<bool>, ghost log0: seq<Event>)
      returns (o: Outcome, rlist: seq<Dep>, found: seq<string>)
      requires n < |script| && Valid(path) && path != [] && path[|path| - 1] == n
      requires InBuild(script, built, buildCalls, n) && !script[n].preferSources
      requires deps == script[n].consumes || deps == script[n].items
      requires |b0| == |script| && !b0[n]
      requires Grows(script, b0, built, log0, log, n)
      modifies this
      ensures |built| == |script|
      ensures o.Done? ==>
                && Valid(path) && buildCalls == old(buildCalls)
                && (forall i | 0 <= i < |script| :: old(built[i]) ==> built[i])
                && OwnersBuilt(built, deps, |deps|)
                && rlist == NotCached(deps) && found == CachePaths(deps)
                && AllServed(script, old(log), log, DepRequests(false, deps))
      ensures o.Done? ==> Grows(script, b0, built, log0, log, n)
      ensures Explained(script, b0, path, n, o)
      decreases Idle(script, built, buildCalls), 1, 0, 1
    {
      rlist, found, o := deps, [], Done;
      var i := 0;
      ghost var k := 0;   // requests looked at so far
      NoRequestYet(script, log, DepRequests(false, deps));
      while o.Done? && i < |rlist|
        invariant |built| == |script| && Explained(script, b0, path, n, o)
        invariant o.Done? ==>
                    Looking(n, deps, path, b0, log0, old(built), old(buildCalls), old(log), k, i, rlist, found)
        decreases o.Done?, |deps| - k
      {
        assert LooksAt(n, deps, path, b0, log0, old(built), old(buildCalls), old(log), k, i, rlist, found, 0);
        ghost var log1 := log;
        o, i, rlist, found := TakeProduct(n, deps, i, rlist, found, k, path, b0, log0);
        if o.Done? {
          ServedOne(script, old(log), log1, log, DepRequests(false, deps), k);
          k := k + 1;
        }
      }
      if o.Done? {
        assert LooksAt(n, deps, path, b0, log0, old(built), old(buildCalls), old(log), k, i, rlist, found, 0);
        LookedAtAll(deps, k, i, rlist, found);
        NoRequestLeft(script, old(log), log, DepRequests(false, deps), k);
      }
    }
  }

  /** Second loop of node_consumes_resolve: all that is left must be among the sources. */
  method ResolveSources(rlist: seq<Dep>) returns (missing: Option<string>, found: seq<string>)
    ensures missing.None? <==> forall dep | dep in rlist :: dep.inSources
    ensures missing.Some? ==> exists dep :: dep in rlist && !dep.inSources && dep.path == missing.value
    ensures missing.None? ==> found == AllPaths(rlist)
  {
    found := [];
    var i := 0;
    while i < |rlist|
      invariant 0 <= i <= |rlist|
      invariant forall k | 0 <= k < i :: rlist[k].inSources
      invariant found == AllPaths(rlist[..i])
    {
      if !rlist[i].inSources {
        return Some(rlist[i].path), found;
      }
      found := found + [rlist[i].path];
      assert rlist[..i + 1] == rlist[..i] + [rlist[i]];
      i := i + 1;
    }
    assert rlist[..i] == rlist;
    missing := None;
  }
}
