/**
 The finished script tree as the scheduler sees it: nodes are named by their index in the
 script's node list, and every answer the file system would give is part of the data.
 Each existence test is made at most once per node in a run, so fixing its answer beforehand
 loses no behaviour.
 */
module BuildGraph {
  import opened Options

  /** A source file of a compile rule: its producer is only asked for when the file is absent. */
  datatype Source = Source(path: string, owner: Option<nat>, present: bool)

  /** A consumed path: the rule that produces it, and where it is found once that rule has run. */
  datatype Dep = Dep(path: string, owner: Option<nat>, inCache: bool, inSources: bool)

  datatype Rule = Rule(
    children: seq<nat>,
    hasBuild: bool,
    preferSources: bool,
    sources: seq<Source>,
    consumes: seq<Dep>,
    items: seq<Dep>,
    ghost height: nat)

  ghost predicate OwnersInRange(n: nat, deps: seq<Dep>) {
    forall i | 0 <= i < |deps| :: deps[i].owner.Some? ==> deps[i].owner.value < n
  }

  /** Ids are in range, and children are lower than their parent: the tree is finite. */
  ghost predicate WellFormed(g: seq<Rule>) {
    && (forall n, i | 0 <= n < |g| && 0 <= i < |g[n].children| ::
          g[n].children[i] < |g| && g[g[n].children[i]].height < g[n].height)
    && (forall n, i | 0 <= n < |g| && 0 <= i < |g[n].sources| ::
          g[n].sources[i].owner.Some? ==> g[n].sources[i].owner.value < |g|)
    && (forall n | 0 <= n < |g| :: OwnersInRange(|g|, g[n].consumes) && OwnersInRange(|g|, g[n].items))
  }

  ghost predicate AsksSource(sources: seq<Source>, d: nat) {
    exists i | 0 <= i < |sources| :: !sources[i].present && sources[i].owner == Some(d)
  }

  ghost predicate AsksDep(deps: seq<Dep>, d: nat) {
    exists i | 0 <= i < |deps| :: deps[i].owner == Some(d)
  }

  /** Building `n` requires building `d` first: `d` is a child of `n`, or owns a product `n` asks for. */
  ghost predicate Edge(g: seq<Rule>, n: nat, d: nat)
    requires n < |g|
  {
    || d in g[n].children
    || (g[n].hasBuild && AsksSource(g[n].sources, d))
    || (g[n].hasBuild && !g[n].preferSources && (AsksDep(g[n].consumes, d) || AsksDep(g[n].items, d)))
  }

  /** The rule asks for `d`: as a child, as the maker of an absent source, or as the owner of a path it consumes. */
  ghost predicate Asks(r: Rule, d: nat) {
    || (exists i :: 0 <= i < |r.children| && r.children[i] == d)
    || (r.hasBuild && exists i :: 0 <= i < |r.sources| && !r.sources[i].present && r.sources[i].owner == Some(d))
    || (r.hasBuild && !r.preferSources &&
        ((exists i :: 0 <= i < |r.consumes| && r.consumes[i].owner == Some(d))
         || exists i :: 0 <= i < |r.items| && r.items[i].owner == Some(d)))
  }

  lemma EdgeIsAsked(g: seq<Rule>, n: nat, d: nat)
    requires n < |g|
    ensures Edge(g, n, d) <==> Asks(g[n], d)
  {
    if d in g[n].children { var i :| 0 <= i < |g[n].children| && g[n].children[i] == d; }
  }

  /** Whatever is reached beyond the start is asked for by something that is reached. */
  lemma ReachedIsAsked(g: seq<Rule>, b: seq<bool>, n: nat, x: nat)
    requires |b| == |g| && Reaches(g, b, n, x) && x != n
    ensures exists y: nat :: y < |g| && Reaches(g, b, n, y) && Asks(g[y], x)
  {
    var w :| Walk(g, b, w) && w[0] == n && w[|w| - 1] == x;
    var v := w[..|w| - 1];
    var y := v[|v| - 1];
    assert Walk(g, b, v) by {
      forall i | 0 <= i < |v| - 1 ensures Edge(g, v[i], v[i + 1]) { assert Edge(g, w[i], w[i + 1]); }
    }
    assert Reaches(g, b, n, y) && Edge(g, w[|w| - 2], w[|w| - 1]);
    EdgeIsAsked(g, y, x);
  }

  /** A path in the graph of edges which avoids the nodes of `b` (those built before). */
  ghost predicate Walk(g: seq<Rule>, b: seq<bool>, w: seq<nat>)
    requires |b| == |g|
  {
    && w != []
    && (forall i | 0 <= i < |w| :: w[i] < |g| && !b[w[i]])
    && (forall i | 0 <= i < |w| - 1 :: Edge(g, w[i], w[i + 1]))
  }

  ghost predicate Reaches(g: seq<Rule>, b: seq<bool>, n: nat, x: nat)
    requires |b| == |g|
  {
    exists w :: Walk(g, b, w) && w[0] == n && w[|w| - 1] == x
  }

  /** A walk whose last node occurs in it earlier: it has gone round a cycle. */
  ghost predicate Looping(w: seq<nat>) {
    w != [] && w[|w| - 1] in w[..|w| - 1]
  }

  /** The walk has gone round a cycle, and `node` lies on it. */
  ghost predicate Circles(w: seq<nat>, node: nat) {
    exists i | 0 <= i < |w| - 1 :: w[i] == w[|w| - 1] && node in w[i..]
  }

  /** A cycle can be reached from `n` through nodes that are not built yet. */
  ghost predicate CycleAhead(g: seq<Rule>, b: seq<bool>, n: nat)
    requires |b| == |g|
  {
    exists w :: Walk(g, b, w) && w[0] == n && Looping(w)
  }

  /** `path` is requested by the rule and can be found nowhere. */
  ghost predicate FoundNowhere(r: Rule, path: string) {
    && r.hasBuild
    && (|| (exists i | 0 <= i < |r.sources| ::
              r.sources[i].path == path && !r.sources[i].present && r.sources[i].owner.None?)
        || Missing(r.preferSources, r.consumes, path)
        || Missing(r.preferSources, r.items, path))
  }

  ghost predicate Missing(preferSources: bool, deps: seq<Dep>, path: string) {
    exists i | 0 <= i < |deps| ::
      deps[i].path == path && !deps[i].inSources && (preferSources || !deps[i].inCache)
  }

  ghost predicate Unresolvable(r: Rule) {
    exists path :: FoundNowhere(r, path)
  }

  /** The paths of the dependencies found in the cache, in request order. */
  function CachePaths(deps: seq<Dep>): seq<string> {
    if deps == [] then []
    else if deps[0].inCache then [deps[0].path] + CachePaths(deps[1..])
    else CachePaths(deps[1..])
  }

  function AllPaths(deps: seq<Dep>): seq<string> {
    seq(|deps|, i requires 0 <= i < |deps| => deps[i].path)
  }

  /** The dependencies that must be looked up among the sources, in request order. */
  function NotCached(deps: seq<Dep>): seq<Dep> {
    if deps == [] then []
    else if deps[0].inCache then NotCached(deps[1..])
    else [deps[0]] + NotCached(deps[1..])
  }

  /** What a rule is told about its inputs: the cached ones first, then those found in sources. */
  function Found(preferSources: bool, deps: seq<Dep>): seq<string> {
    if preferSources then AllPaths(deps) else CachePaths(deps) + AllPaths(NotCached(deps))
  }

  function Inputs(r: Rule): seq<string> {
    Found(r.preferSources, r.consumes) + Found(r.preferSources, r.items)
  }

  // ---------------------------------------------------------------- what a rule is told

  /** Request `i` is answered before request `j`: those found in the cache come first, each group in request order. */
  ghost predicate Precedes(preferSources: bool, deps: seq<Dep>, i: nat, j: nat)
    requires i < |deps| && j < |deps|
  {
    var ci, cj := !preferSources && deps[i].inCache, !preferSources && deps[j].inCache;
    if ci == cj then i < j else ci
  }

  /** `order` gives for each answer its request. */
  ghost predicate Answering(preferSources: bool, deps: seq<Dep>, answers: seq<string>, order: seq<nat>) {
    && |order| == |answers| == |deps|
    && (forall x | 0 <= x < |order| :: order[x] < |deps| && answers[x] == deps[order[x]].path)
    && (forall x, y | 0 <= x < y < |order| :: Precedes(preferSources, deps, order[x], order[y]))
  }

  /** The requested paths, each as often as it is requested, in the order in which they are answered. */
  ghost predicate Answers(preferSources: bool, deps: seq<Dep>, answers: seq<string>) {
    && multiset(answers) == multiset(seq(|deps|, i requires 0 <= i < |deps| => deps[i].path))
    && exists order: seq<nat> :: Answering(preferSources, deps, answers, order)
  }

  /** The answers to all consumed paths, and behind them those to all items. */
  ghost predicate Told(r: Rule, inputs: seq<string>) {
    && |inputs| == |r.consumes| + |r.items|
    && Answers(r.preferSources, r.consumes, inputs[..|r.consumes|])
    && Answers(r.preferSources, r.items, inputs[|r.consumes|..])
  }

  lemma {:induction false} Appended(s: seq<Dep>, dep: Dep)
    ensures NotCached(s + [dep]) == NotCached(s) + if dep.inCache then [] else [dep]
    ensures CachePaths(s + [dep]) == CachePaths(s) + if dep.inCache then [dep.path] else []
  {
    if s == [] {
    } else {
      assert (s + [dep])[1..] == s[1..] + [dep];
      Appended(s[1..], dep);
    }
  }

  /** Looking at request `k` moves it from the waiting list to one of the two results. */
  lemma OneMore(deps: seq<Dep>, k: nat)
    requires k < |deps|
    ensures NotCached(deps[..k + 1]) == NotCached(deps[..k]) + if deps[k].inCache then [] else [deps[k]]
    ensures CachePaths(deps[..k + 1]) == CachePaths(deps[..k]) + if deps[k].inCache then [deps[k].path] else []
  {
    assert deps[..k + 1] == deps[..k] + [deps[k]];
    Appended(deps[..k], deps[k]);
  }

  /** The places below `k` of the requests that are, or are not, found in the cache. */
  ghost function Places(deps: seq<Dep>, k: nat, cached: bool): (s: seq<nat>)
    requires k <= |deps|
    ensures forall x | 0 <= x < |s| :: s[x] < k && deps[s[x]].inCache == cached
    ensures forall x, y | 0 <= x < y < |s| :: s[x] < s[y]
  {
    if k == 0 then []
    else Places(deps, k - 1, cached) + if deps[k - 1].inCache == cached then [k - 1] else []
  }

  lemma {:induction false} AnswersAt(deps: seq<Dep>, k: nat)
    requires k <= |deps|
    ensures |Places(deps, k, true)| + |Places(deps, k, false)| == k
    ensures |CachePaths(deps[..k])| == |Places(deps, k, true)| && |NotCached(deps[..k])| == |Places(deps, k, false)|
    ensures forall x | 0 <= x < |CachePaths(deps[..k])| ::
              CachePaths(deps[..k])[x] == deps[Places(deps, k, true)[x]].path
    ensures forall x | 0 <= x < |NotCached(deps[..k])| :: NotCached(deps[..k])[x] == deps[Places(deps, k, false)[x]]
  {
    if k > 0 {
      AnswersAt(deps, k - 1);
      OneMore(deps, k - 1);
    }
  }

  lemma {:induction false} EachAnswered(deps: seq<Dep>, k: nat)
    requires k <= |deps|
    ensures multiset(CachePaths(deps[..k]) + AllPaths(NotCached(deps[..k]))) == multiset(AllPaths(deps[..k]))
  {
    if k > 0 {
      EachAnswered(deps, k - 1);
      OneMore(deps, k - 1);
      assert deps[..k] == deps[..k - 1] + [deps[k - 1]];
      OneMoreAnswer(CachePaths(deps[..k - 1]), NotCached(deps[..k - 1]), deps[..k - 1], deps[k - 1]);
    }
  }

  lemma OneMoreAnswer(found: seq<string>, waiting: seq<Dep>, deps: seq<Dep>, dep: Dep)
    requires multiset(found + AllPaths(waiting)) == multiset(AllPaths(deps))
    ensures var found' := found + if dep.inCache then [dep.path] else [];
            var waiting' := waiting + if dep.inCache then [] else [dep];
            multiset(found' + AllPaths(waiting')) == multiset(AllPaths(deps + [dep]))
  {
    assert AllPaths(deps + [dep]) == AllPaths(deps) + [dep.path];
    assert AllPaths(waiting + [dep]) == AllPaths(waiting) + [dep.path];
    if dep.inCache {
      assert waiting + [] == waiting;
      assert multiset((found + [dep.path]) + AllPaths(waiting)) == multiset((found + AllPaths(waiting)) + [dep.path]);
    } else {
      assert found + [] == found;
      assert found + (AllPaths(waiting) + [dep.path]) == (found + AllPaths(waiting)) + [dep.path];
    }
  }

  lemma FoundInOrder(deps: seq<Dep>)
    ensures Answering(false, deps, CachePaths(deps) + AllPaths(NotCached(deps)),
                      Places(deps, |deps|, true) + Places(deps, |deps|, false))
  {
    AnswersAt(deps, |deps|);
    assert deps[..|deps|] == deps;
    TwoParts(deps, CachePaths(deps), NotCached(deps), Places(deps, |deps|, true), Places(deps, |deps|, false));
  }

  lemma TwoParts(deps: seq<Dep>, found: seq<string>, waiting: seq<Dep>, c: seq<nat>, w: seq<nat>)
    requires |found| == |c| && |waiting| == |w| && |c| + |w| == |deps|
    requires forall x | 0 <= x < |c| :: c[x] < |deps| && deps[c[x]].inCache && found[x] == deps[c[x]].path
    requires forall x | 0 <= x < |w| :: w[x] < |deps| && !deps[w[x]].inCache && waiting[x] == deps[w[x]]
    requires (forall x, y | 0 <= x < y < |c| :: c[x] < c[y]) && (forall x, y | 0 <= x < y < |w| :: w[x] < w[y])
    ensures Answering(false, deps, found + AllPaths(waiting), c + w)
  {
    var order, n := c + w, |c|;
    forall x | 0 <= x < |order| ensures order[x] < |deps| && (found + AllPaths(waiting))[x] == deps[order[x]].path {
      if x >= n { assert order[x] == w[x - n]; }
    }
    forall x, y | 0 <= x < y < |order| ensures Precedes(false, deps, order[x], order[y]) {
      if y < n {
        assert order[x] == c[x] && order[y] == c[y];
      } else if x < n {
        assert order[x] == c[x] && order[y] == w[y - n];
      } else {
        assert order[x] == w[x - n] && order[y] == w[y - n];
      }
    }
  }

  lemma FoundAnswers(preferSources: bool, deps: seq<Dep>)
    ensures Answers(preferSources, deps, Found(preferSources, deps))
  {
    if preferSources {
      var order := seq(|deps|, i => i);
      assert Answering(true, deps, AllPaths(deps), order);
    } else {
      FoundInOrder(deps);
      EachAnswered(deps, |deps|);
      assert deps[..|deps|] == deps;
    }
  }

  /** A rule is told every consumed path and every item, in order. */
  lemma InputsAreTold(r: Rule)
    ensures Told(r, Inputs(r))
  {
    FoundAnswers(r.preferSources, r.consumes);
    FoundAnswers(r.preferSources, r.items);
    var consumed, items := Found(r.preferSources, r.consumes), Found(r.preferSources, r.items);
    assert |consumed| == |r.consumes| && |items| == |r.items|;
    assert Inputs(r)[..|r.consumes|] == consumed && Inputs(r)[|r.consumes|..] == items;
  }

  // ---------------------------------------------------------------- the log of a run

  datatype Event = Work(node: nat, inputs: seq<string>) | Finish(node: nat)

  ghost predicate Distinct<T>(s: seq<T>) {
    forall i, j | 0 <= i < j < |s| :: s[i] != s[j]
  }

  /** Everything `n` depends on is finished in `log`. */
  ghost predicate DepsFinished(g: seq<Rule>, n: nat, log: seq<Event>)
    requires n < |g|
  {
    forall d :: Edge(g, n, d) ==> Finish(d) in log
  }

  // The order of building: every node builds what it asks for one after the other, and then does its work.

  /** `x` is `d`, or can be reached from it. */
  ghost predicate LeadsTo(g: seq<Rule>, d: nat, x: nat) {
    Reaches(g, seq(|g|, _ => false), d, x)
  }

  ghost function ChildRequests(r: Rule): (s: seq<Option<nat>>)
    ensures |s| == |r.children| && forall i | 0 <= i < |s| :: s[i] == Some(r.children[i])
  {
    seq(|r.children|, i requires 0 <= i < |r.children| => Some(r.children[i]))
  }

  ghost function SourceRequests(sources: seq<Source>): (s: seq<Option<nat>>)
    ensures |s| == |sources| && forall i | 0 <= i < |s| :: s[i] == if sources[i].present then None else sources[i].owner
  {
    seq(|sources|, i requires 0 <= i < |sources| => if sources[i].present then None else sources[i].owner)
  }

  ghost function DepRequests(preferSources: bool, deps: seq<Dep>): (s: seq<Option<nat>>)
    ensures |s| == |deps| && forall i | 0 <= i < |s| :: s[i] == if preferSources then None else deps[i].owner
  {
    seq(|deps|, i requires 0 <= i < |deps| => if preferSources then None else deps[i].owner)
  }

  /** What a build action asks for, in order: the makers of absent sources, the owners of what it consumes. */
  ghost function OwnRequests(r: Rule): seq<Option<nat>> {
    SourceRequests(r.sources) + DepRequests(r.preferSources, r.consumes) + DepRequests(r.preferSources, r.items)
  }

  ghost function Requests(r: Rule): seq<Option<nat>> {
    ChildRequests(r) + if r.hasBuild then OwnRequests(r) else []
  }

  /** What has happened since `log0` came from building that node. */
  ghost predicate Since(g: seq<Rule>, log0: seq<Event>, log1: seq<Event>, ask: Option<nat>) {
    log0 <= log1 && forall k | |log0| <= k < |log1| :: ask.Some? && LeadsTo(g, ask.value, log1[k].node)
  }

  /** What has happened since `log0` came from building these nodes, one after the other. */
  ghost predicate Served(g: seq<Rule>, log0: seq<Event>, log1: seq<Event>, asks: seq<Option<nat>>)
    decreases |asks|
  {
    if asks == [] then log0 == log1
    else exists mid :: Served(g, log0, mid, Earlier(asks)) && Since(g, mid, log1, Latest(asks))
  }

  ghost function Earlier(asks: seq<Option<nat>>): (s: seq<Option<nat>>)
    requires asks != []
    ensures |s| == |asks| - 1 && s + [Latest(asks)] == asks
  {
    asks[..|asks| - 1]
  }

  ghost function Latest(asks: seq<Option<nat>>): Option<nat>
    requires asks != []
  {
    asks[|asks| - 1]
  }

  ghost predicate ServedAt(g: seq<Rule>, log0: seq<Event>, log1: seq<Event>, asks: seq<Option<nat>>, n: nat) {
    n == |asks| ==> Served(g, log0, log1, asks)
  }

  ghost predicate AllServed(g: seq<Rule>, log0: seq<Event>, log1: seq<Event>, asks: seq<Option<nat>>) {
    forall n: nat :: ServedAt(g, log0, log1, asks, n)
  }

  /** All that the rule asks for was built last, in order. */
  ghost predicate Visited(g: seq<Rule>, n: nat, log: seq<Event>)
    requires n < |g|
  {
    exists log0 :: AllServed(g, log0, log, Requests(g[n]))
  }

  /** Work comes right after all that is asked for, and the end of a node right after its work or its children. */
  ghost predicate TurnAt(g: seq<Rule>, log: seq<Event>, k: nat) {
    k < |log| ==>
      && log[k].node < |g|
      && if log[k].Finish? && g[log[k].node].hasBuild then k > 0 && log[k - 1].Work? && log[k - 1].node == log[k].node
         else Visited(g, log[k].node, log[..k])
  }

  ghost predicate InTurn(g: seq<Rule>, log: seq<Event>) {
    forall k: nat :: TurnAt(g, log, k)
  }

  lemma TurnMore(g: seq<Rule>, log: seq<Event>, e: Event)
    requires InTurn(g, log) && e.node < |g|
    requires e.Finish? && g[e.node].hasBuild ==>
               log != [] && log[|log| - 1].Work? && log[|log| - 1].node == e.node
    requires !(e.Finish? && g[e.node].hasBuild) ==> Visited(g, e.node, log)
    ensures InTurn(g, log + [e])
  {
    var more := log + [e];
    forall k: nat ensures TurnAt(g, more, k) {
      assert TurnAt(g, log, k);
      if k < |log| {
        assert more[..k] == log[..k];
      } else if k == |log| {
        assert more[..k] == log;
      }
    }
  }

  lemma ServedMore(g: seq<Rule>, log0: seq<Event>, mid: seq<Event>, log1: seq<Event>, asks: seq<Option<nat>>,
                   ask: Option<nat>)
    requires Served(g, log0, mid, asks) && Since(g, mid, log1, ask)
    ensures Served(g, log0, log1, asks + [ask])
  {
    var more := asks + [ask];
    assert Earlier(more) == asks && Latest(more) == ask;
  }

  lemma {:induction false} ServedConcat(g: seq<Rule>, log0: seq<Event>, log1: seq<Event>, log2: seq<Event>,
                                        a: seq<Option<nat>>, b: seq<Option<nat>>)
    requires Served(g, log0, log1, a) && Served(g, log1, log2, b)
    ensures Served(g, log0, log2, a + b)
    decreases |b|
  {
    if b == [] {
      assert a + b == a;
    } else {
      var init, last := Earlier(b), Latest(b);
      var mid :| Served(g, log1, mid, init) && Since(g, mid, log2, last);
      ServedConcat(g, log0, log1, mid, a, init);
      ServedMore(g, log0, mid, log2, a + init, last);
      assert a + b == (a + init) + [last];
    }
  }

  lemma AllConcat(g: seq<Rule>, log0: seq<Event>, log1: seq<Event>, log2: seq<Event>, a: seq<Option<nat>>,
                  b: seq<Option<nat>>)
    requires AllServed(g, log0, log1, a) && AllServed(g, log1, log2, b)
    ensures AllServed(g, log0, log2, a + b)
  {
    assert ServedAt(g, log0, log1, a, |a|) && ServedAt(g, log1, log2, b, |b|);
    ServedConcat(g, log0, log1, log2, a, b);
  }

  lemma {:induction false} NoneServed(g: seq<Rule>, log: seq<Event>, asks: seq<Option<nat>>)
    requires forall i | 0 <= i < |asks| :: asks[i] == None
    ensures Served(g, log, log, asks)
    decreases |asks|
  {
    if asks != [] {
      NoneServed(g, log, Earlier(asks));
      assert Since(g, log, log, Latest(asks));
    }
  }

  /** Nothing has to happen when nothing is asked for. */
  lemma NothingServed(g: seq<Rule>, log: seq<Event>, asks: seq<Option<nat>>)
    requires forall i | 0 <= i < |asks| :: asks[i] == None
    ensures AllServed(g, log, log, asks)
  {
    NoneServed(g, log, asks);
  }

  /** One more request has been served. */
  lemma ServedOne(g: seq<Rule>, log0: seq<Event>, log1: seq<Event>, log2: seq<Event>, asks: seq<Option<nat>>, i: nat)
    requires i < |asks| && AllServed(g, log0, log1, asks[..i]) && Since(g, log1, log2, asks[i])
    ensures AllServed(g, log0, log2, asks[..i + 1])
  {
    assert ServedAt(g, log0, log1, asks[..i], i);
    ServedMore(g, log0, log1, log2, asks[..i], asks[i]);
    assert asks[..i + 1] == asks[..i] + [asks[i]];
  }

  lemma NoRequestYet(g: seq<Rule>, log: seq<Event>, asks: seq<Option<nat>>)
    ensures AllServed(g, log, log, asks[..0])
  {
    assert asks[..0] == [];
  }

  lemma NoRequestLeft(g: seq<Rule>, log0: seq<Event>, log1: seq<Event>, asks: seq<Option<nat>>, i: nat)
    requires i == |asks| && AllServed(g, log0, log1, asks[..i])
    ensures AllServed(g, log0, log1, asks)
  {
    assert asks[..i] == asks;
  }

  lemma OwnServed(g: seq<Rule>, n: nat, log0: seq<Event>, log1: seq<Event>, log2: seq<Event>, log3: seq<Event>)
    requires n < |g| && AllServed(g, log0, log1, SourceRequests(g[n].sources))
    requires AllServed(g, log1, log2, DepRequests(g[n].preferSources, g[n].consumes))
    requires AllServed(g, log2, log3, DepRequests(g[n].preferSources, g[n].items))
    ensures AllServed(g, log0, log3, OwnRequests(g[n]))
  {
    var r := g[n];
    AllConcat(g, log0, log1, log2, SourceRequests(r.sources), DepRequests(r.preferSources, r.consumes));
    AllConcat(g, log0, log2, log3, SourceRequests(r.sources) + DepRequests(r.preferSources, r.consumes),
              DepRequests(r.preferSources, r.items));
  }

  lemma AllVisited(g: seq<Rule>, n: nat, log0: seq<Event>, log1: seq<Event>, log2: seq<Event>)
    requires n < |g| && g[n].hasBuild && AllServed(g, log0, log1, ChildRequests(g[n]))
    requires AllServed(g, log1, log2, OwnRequests(g[n]))
    ensures Visited(g, n, log2)
  {
    AllConcat(g, log0, log1, log2, ChildRequests(g[n]), OwnRequests(g[n]));
    assert AllServed(g, log0, log2, Requests(g[n]));
  }

  lemma ChildrenVisited(g: seq<Rule>, n: nat, log0: seq<Event>, log1: seq<Event>)
    requires n < |g| && !g[n].hasBuild && AllServed(g, log0, log1, ChildRequests(g[n]))
    ensures Visited(g, n, log1)
  {
    assert ChildRequests(g[n]) + [] == ChildRequests(g[n]);
    assert AllServed(g, log0, log1, Requests(g[n]));
  }

  /** The event may come right after `log`. */
  ghost predicate Allowed(g: seq<Rule>, e: Event, log: seq<Event>) {
    && e.node < |g|
    && DepsFinished(g, e.node, log)
    && match e
       case Work(n, inputs) => g[n].hasBuild && inputs == Inputs(g[n]) && !Unresolvable(g[n])
       case Finish(n) => g[n].hasBuild ==> Work(n, Inputs(g[n])) in log
  }

  ghost predicate Ordered(g: seq<Rule>, log: seq<Event>) {
    forall k | 0 <= k < |log| :: Allowed(g, log[k], log[..k])
  }

  /** The request is satisfied: its owner is finished, and the path is there. */
  ghost predicate Obtained(preferSources: bool, dep: Dep, before: seq<Event>) {
    && (!preferSources && dep.owner.Some? ==> Finish(dep.owner.value) in before)
    && (dep.inSources || (!preferSources && dep.inCache))
  }

  /** All that a rule needs before its work is there. */
  ghost predicate Ready(r: Rule, before: seq<Event>) {
    && (forall i | 0 <= i < |r.sources| :: r.sources[i].present
          || (r.sources[i].owner.Some? && Finish(r.sources[i].owner.value) in before))
    && (forall i | 0 <= i < |r.consumes| :: Obtained(r.preferSources, r.consumes[i], before))
    && (forall i | 0 <= i < |r.items| :: Obtained(r.preferSources, r.items[i], before))
  }

  /** Work is done with the inputs told and all that is needed there; a node ends behind its children and its work. */
  ghost predicate Lawful(g: seq<Rule>, e: Event, before: seq<Event>) {
    && e.node < |g|
    && (forall i | 0 <= i < |g[e.node].children| :: Finish(g[e.node].children[i]) in before)
    && match e
       case Work(n, inputs) => g[n].hasBuild && Told(g[n], inputs) && Ready(g[n], before)
       case Finish(n) => g[n].hasBuild ==> exists inputs :: Work(n, inputs) in before
  }

  lemma AllowedIsLawful(g: seq<Rule>, e: Event, before: seq<Event>)
    requires Allowed(g, e, before)
    ensures Lawful(g, e, before)
  {
    var r := g[e.node];
    forall i | 0 <= i < |r.children| ensures Finish(r.children[i]) in before { assert Edge(g, e.node, r.children[i]); }
    if e.Work? {
      InputsAreTold(r);
      forall i | 0 <= i < |r.sources| && !r.sources[i].present
        ensures r.sources[i].owner.Some? && Finish(r.sources[i].owner.value) in before
      {
        assert FoundNowhere(r, r.sources[i].path) || r.sources[i].owner.Some?;
        if r.sources[i].owner.Some? {
          assert AsksSource(r.sources, r.sources[i].owner.value);
          assert Edge(g, e.node, r.sources[i].owner.value);
        }
      }
      AllObtained(g, e.node, r.consumes, before);
      AllObtained(g, e.node, r.items, before);
    }
  }

  lemma AllObtained(g: seq<Rule>, n: nat, deps: seq<Dep>, before: seq<Event>)
    requires n < |g| && g[n].hasBuild && DepsFinished(g, n, before) && !Unresolvable(g[n])
    requires deps == g[n].consumes || deps == g[n].items
    ensures forall i | 0 <= i < |deps| :: Obtained(g[n].preferSources, deps[i], before)
  {
    forall i | 0 <= i < |deps| ensures Obtained(g[n].preferSources, deps[i], before) {
      assert Missing(g[n].preferSources, deps, deps[i].path) ==> FoundNowhere(g[n], deps[i].path);
      assert !Missing(g[n].preferSources, deps, deps[i].path);
      if !g[n].preferSources && deps[i].owner.Some? {
        assert AsksDep(deps, deps[i].owner.value);
        assert Edge(g, n, deps[i].owner.value);
      }
    }
  }

  // ---------------------------------------------------------------- facts about walks

  lemma ReachesSelf(g: seq<Rule>, b: seq<bool>, n: nat)
    requires |b| == |g| && n < |g| && !b[n]
    ensures Reaches(g, b, n, n)
  {
    assert Walk(g, b, [n]);
  }

  /** One more edge in front; `b1` may already have more nodes built. */
  lemma ReachesStep(g: seq<Rule>, b: seq<bool>, b1: seq<bool>, n: nat, c: nat, x: nat)
    requires |b| == |b1| == |g| && n < |g| && !b[n] && Edge(g, n, c)
    requires forall i | 0 <= i < |g| :: b[i] ==> b1[i]
    requires Reaches(g, b1, c, x)
    ensures Reaches(g, b, n, x)
  {
    var w :| Walk(g, b1, w) && w[0] == c && w[|w| - 1] == x;
    var v := [n] + w;
    forall i | 0 <= i < |v| - 1 ensures Edge(g, v[i], v[i + 1]) {
      if i > 0 { assert v[i] == w[i - 1] && v[i + 1] == w[i]; }
    }
    assert Walk(g, b, v) && v[0] == n && v[|v| - 1] == x;
  }

  /** In an ordered log a walk from a finished node only meets finished nodes, each strictly earlier. */
  lemma {:induction false} WalkDescends(g: seq<Rule>, b: seq<bool>, log: seq<Event>, w: seq<nat>, k: nat)
    requires |b| == |g| && Ordered(g, log) && Walk(g, b, w)
    requires k < |log| && log[k] == Finish(w[0])
    ensures forall i | 0 < i < |w| :: Finish(w[i]) in log[..k]
    decreases |w|
  {
    if |w| > 1 {
      assert Edge(g, w[0], w[1]);
      assert Allowed(g, log[k], log[..k]);
      assert Finish(w[1]) in log[..k];
      var k1 :| 0 <= k1 < k && log[k1] == Finish(w[1]);
      var v := w[1..];
      assert Walk(g, b, v) by {
        forall i | 0 <= i < |v| - 1 ensures Edge(g, v[i], v[i + 1]) { assert Edge(g, w[i + 1], w[i + 2]); }
      }
      WalkDescends(g, b, log, v, k1);
      forall i | 0 < i < |w| ensures Finish(w[i]) in log[..k] {
        if i > 1 {
          assert w[i] == v[i - 1] && Finish(v[i - 1]) in log[..k1];
          assert forall e :: e in log[..k1] ==> e in log[..k];
        }
      }
    }
  }

  /** Soundness of "done": once a node is finished in an ordered log, no cycle is reachable from it. */
  lemma {:induction false} FinishedMeansAcyclic(g: seq<Rule>, b: seq<bool>, log: seq<Event>, n: nat)
    requires |b| == |g| && Ordered(g, log) && Distinct(log) && Finish(n) in log
    ensures !CycleAhead(g, b, n)
  {
    if CycleAhead(g, b, n) {
      var w :| Walk(g, b, w) && w[0] == n && Looping(w);
      var i :| 0 <= i < |w| - 1 && w[i] == w[|w| - 1];
      var k0 :| 0 <= k0 < |log| && log[k0] == Finish(n);
      WalkDescends(g, b, log, w, k0);
      assert Finish(w[i]) in log by {
        if i > 0 { assert Finish(w[i]) in log[..k0]; }
      }
      var k :| 0 <= k < |log| && log[k] == Finish(w[i]);
      var v := w[i..];
      assert Walk(g, b, v) by {
        forall j | 0 <= j < |v| - 1 ensures Edge(g, v[j], v[j + 1]) { assert Edge(g, w[i + j], w[i + j + 1]); }
      }
      WalkDescends(g, b, log, v, k);
      assert false;
    }
  }

  /** Completeness of "done": everything reachable from a finished node is finished too. */
  lemma {:induction false} FinishedIsClosed(g: seq<Rule>, b: seq<bool>, log: seq<Event>, n: nat, x: nat)
    requires |b| == |g| && Ordered(g, log) && Finish(n) in log && Reaches(g, b, n, x)
    ensures Finish(x) in log
  {
    var w :| Walk(g, b, w) && w[0] == n && w[|w| - 1] == x;
    var k :| 0 <= k < |log| && log[k] == Finish(n);
    WalkDescends(g, b, log, w, k);
    if |w| > 1 {
      var last := |w| - 1;
      assert 0 < last < |w| && Finish(w[last]) in log[..k];
    }
  }

  /** How often the build action of `x` did its work. */
  ghost function Runs(log: seq<Event>, x: nat): nat {
    if log == [] then 0
    else Runs(log[..|log| - 1], x) + if log[|log| - 1].Work? && log[|log| - 1].node == x then 1 else 0
  }

  /** No build action runs twice, and the finished rules are the ones that ran. */
  lemma {:induction false} RunsOnce(g: seq<Rule>, log: seq<Event>, x: nat)
    requires Distinct(log) && Ordered(g, log) && x < |g|
    ensures Runs(log, x) == if Work(x, Inputs(g[x])) in log then 1 else 0
  {
    if log == [] {
    } else {
      var init, last := log[..|log| - 1], log[|log| - 1];
      Shorter(g, log);
      RunsOnce(g, init, x);
      assert log == init + [last];
      assert Work(x, Inputs(g[x])) in log <==> Work(x, Inputs(g[x])) in init || last == Work(x, Inputs(g[x]));
    }
  }

  lemma Shorter(g: seq<Rule>, log: seq<Event>)
    requires Distinct(log) && Ordered(g, log) && log != []
    ensures var init, last := log[..|log| - 1], log[|log| - 1];
            Distinct(init) && Ordered(g, init) && last !in init && Allowed(g, last, init)
  {
    var init, last := log[..|log| - 1], log[|log| - 1];
    assert Allowed(g, last, init);
    forall k | 0 <= k < |init| ensures Allowed(g, init[k], init[..k]) {
      assert init[k] == log[k] && init[..k] == log[..k];
    }
  }
}
