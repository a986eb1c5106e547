/**
 In-place initialization of a script tree (script.c, node_if.c, node_in_sources.c). Nodes are linked
 through child, next and parent; the links are kept in one table indexed by node id, so every alias
 of the original heap is an alias here. Rules are spliced out of the very sibling list that an outer
 loop is walking over.
 */
module TreeShaking {
  import opened Forests

  const NULL := -1

  datatype Links = Links(child: int, next: int, parent: int, init: bool)

  // ---------------------------------------------------------------- what the links represent

  /** The siblings from `p` up to, not including, `q` are the forest `f`, children of `parent`. */
  ghost predicate Seg(nodes: seq<Links>, p: int, q: int, parent: int, f: Forest)
    decreases f
  {
    match f
    case Nil => p == q
    case Cons(id, kids, rest) =>
      && p == id && id < |nodes| && nodes[id].parent == parent
      && Seg(nodes, nodes[id].child, NULL, id, kids)
      && Seg(nodes, nodes[id].next, q, parent, rest)
  }

  ghost function Head(f: Forest, q: int): int {
    if f.Cons? then f.id else q
  }

  /** The last node of the list, or `prev` if it is empty. */
  ghost function LastOr(prev: int, f: Forest): int
    decreases f
  {
    match f
    case Nil => prev
    case Cons(id, _, rest) => LastOr(id, rest)
  }

  ghost predicate SameLinks(a: Links, b: Links) {
    a.child == b.child && a.next == b.next && a.parent == b.parent
  }

  ghost predicate LinksKept(nodes: seq<Links>, nodes': seq<Links>, id: nat) {
    id < |nodes| && id < |nodes'| ==> SameLinks(nodes[id], nodes'[id])
  }

  ghost predicate NodeKept(nodes: seq<Links>, nodes': seq<Links>, id: nat) {
    id < |nodes| && id < |nodes'| ==> nodes[id] == nodes'[id]
  }

  /** Nothing changed outside `S`. */
  ghost predicate Frame(nodes: seq<Links>, nodes': seq<Links>, S: set<int>) {
    |nodes| == |nodes'| && forall id: nat :: id !in S ==> NodeKept(nodes, nodes', id)
  }

  ghost predicate FlagKept(nodes: seq<Links>, nodes': seq<Links>, id: nat) {
    id < |nodes| && id < |nodes'| ==> nodes[id].init == nodes'[id].init
  }

  ghost predicate FlagsKept(nodes: seq<Links>, nodes': seq<Links>) {
    |nodes| == |nodes'| && forall id: nat :: FlagKept(nodes, nodes', id)
  }

  ghost predicate FlagIs(nodes: seq<Links>, id: nat, b: bool) {
    id < |nodes| ==> nodes[id].init == b
  }

  ghost predicate AllFlags(nodes: seq<Links>, f: Forest, b: bool) {
    forall id: nat :: id in Ids(f) ==> FlagIs(nodes, id, b)
  }

  lemma {:induction false} SegHead(nodes: seq<Links>, p: int, q: int, parent: int, f: Forest)
    requires Seg(nodes, p, q, parent, f)
    ensures p == Head(f, q)
  {
  }

  lemma {:induction false} SegInRange(nodes: seq<Links>, p: int, q: int, parent: int, f: Forest, id: nat)
    requires Seg(nodes, p, q, parent, f) && id in Ids(f)
    ensures id < |nodes|
    decreases f
  {
    match f
    case Cons(x, kids, rest) =>
      if id in Ids(kids) { SegInRange(nodes, nodes[x].child, NULL, x, kids, id); }
      if id in Ids(rest) { SegInRange(nodes, nodes[x].next, q, parent, rest, id); }
  }

  lemma {:induction false} SegFrame(nodes: seq<Links>, nodes': seq<Links>, p: int, q: int, parent: int, f: Forest)
    requires Seg(nodes, p, q, parent, f) && |nodes| == |nodes'|
    requires forall id: nat :: id in Ids(f) ==> LinksKept(nodes, nodes', id)
    ensures Seg(nodes', p, q, parent, f)
    decreases f
  {
    match f
    case Nil =>
    case Cons(id, kids, rest) =>
      assert LinksKept(nodes, nodes', id);
      SegFrame(nodes, nodes', nodes[id].child, NULL, id, kids);
      SegFrame(nodes, nodes', nodes[id].next, q, parent, rest);
  }

  lemma SegFrameOut(nodes: seq<Links>, nodes': seq<Links>, p: int, q: int, parent: int, f: Forest, S: set<int>)
    requires Seg(nodes, p, q, parent, f) && Frame(nodes, nodes', S)
    requires forall id: nat :: id in Ids(f) ==> id !in S
    ensures Seg(nodes', p, q, parent, f)
  {
    forall id: nat | id in Ids(f) ensures LinksKept(nodes, nodes', id) {
      assert NodeKept(nodes, nodes', id);
    }
    SegFrame(nodes, nodes', p, q, parent, f);
  }

  /** What the links say, one node at a time; -1 is the null pointer. */
  lemma SegLinks(nodes: seq<Links>, p: int, q: int, parent: int, id: nat, kids: Forest, rest: Forest)
    ensures Seg(nodes, p, q, parent, Cons(id, kids, rest)) <==>
              && p == id && id < |nodes| && nodes[id].parent == parent
              && Seg(nodes, nodes[id].child, -1, id, kids) && Seg(nodes, nodes[id].next, q, parent, rest)
    ensures Seg(nodes, p, q, parent, Nil) <==> p == q
  {
  }

  lemma {:induction false} SegAppend(nodes: seq<Links>, p: int, m: int, q: int, parent: int, f: Forest, g: Forest)
    requires Seg(nodes, p, m, parent, f) && Seg(nodes, m, q, parent, g)
    ensures Seg(nodes, p, q, parent, Append(f, g))
    decreases f
  {
    match f
    case Nil =>
    case Cons(id, _, rest) => SegAppend(nodes, nodes[id].next, m, q, parent, rest, g);
  }

  /** The end of a list is redirected by writing the `next` link of its last node. */
  lemma {:induction false} SegRetarget(nodes: seq<Links>, nodes': seq<Links>, p: int, q: int, q': int, parent: int,
                                       f: Forest)
    requires f.Cons? && NoDup(f) && Seg(nodes, p, q, parent, f) && |nodes| == |nodes'|
    requires forall id: nat :: id in Ids(f) && id != LastOr(NULL, f) ==> LinksKept(nodes, nodes', id)
    requires var l := LastOr(NULL, f); 0 <= l < |nodes| ==> SameLinks(nodes[l].(next := q'), nodes'[l])
    ensures Seg(nodes', p, q', parent, f)
    decreases f
  {
    match f
    case Cons(id, kids, rest) =>
      LastIn(NULL, f);
      if rest.Nil? {
        SegFrame(nodes, nodes', nodes[id].child, NULL, id, kids);
      } else {
        LastIn(id, rest);
        LastSame(id, NULL, rest);
        assert LinksKept(nodes, nodes', id);
        SegFrame(nodes, nodes', nodes[id].child, NULL, id, kids);
        SegRetarget(nodes, nodes', nodes[id].next, q, q', parent, rest);
      }
  }

  lemma {:induction false} LastIn(prev: int, f: Forest)
    requires f.Cons?
    ensures LastOr(prev, f) >= 0 && LastOr(prev, f) in Ids(f)
    decreases f
  {
    if f.rest.Cons? { LastIn(f.id, f.rest); }
  }

  lemma LastSame(a: int, b: int, f: Forest)
    requires f.Cons?
    ensures LastOr(a, f) == LastOr(b, f)
  {
  }

  // ---------------------------------------------------------------- frames

  lemma FrameStep(a: seq<Links>, b: seq<Links>, id: nat, l: Links, S: set<int>)
    requires Frame(a, b, S) && id < |b| && id in S
    ensures Frame(a, b[id := l], S)
  {
    var c := b[id := l];
    forall x: nat | x !in S ensures NodeKept(a, c, x) {
      assert NodeKept(a, b, x);
    }
  }

  lemma FrameTrans(a: seq<Links>, b: seq<Links>, c: seq<Links>, S: set<int>, T: set<int>)
    requires Frame(a, b, S) && Frame(b, c, T) && S <= T
    ensures Frame(a, c, T)
  {
    forall x: nat | x !in T ensures NodeKept(a, c, x) {
      assert NodeKept(a, b, x) && NodeKept(b, c, x);
    }
  }

  lemma FlagsStep(a: seq<Links>, b: seq<Links>, id: nat, l: Links)
    requires FlagsKept(a, b) && id < |b| && l.init == b[id].init
    ensures FlagsKept(a, b[id := l])
  {
    var c := b[id := l];
    forall x: nat ensures FlagKept(a, c, x) {
      assert FlagKept(a, b, x);
    }
  }

  // ---------------------------------------------------------------- splicing, one node at a time

  /** Giving one node of a list a new parent, while the list is cut at this node. */
  lemma ReparentStep(nodes: seq<Links>, first: int, nn: int, par: int, next: int, owner: int, moved: Forest,
                     rem: Forest)
    returns (moved': Forest)
    requires rem.Cons? && NoDup(rem) && Ids(moved) !! Ids(rem)
    requires Seg(nodes, first, nn, par, moved) && Seg(nodes, nn, NULL, owner, rem)
    requires next == if rem.rest.Nil? then next else nodes[nn].next
    ensures moved' == Append(moved, Cons(rem.id, rem.kids, Nil))
    ensures var nodes' := nodes[nn := nodes[nn].(parent := par, next := next)];
            Seg(nodes', first, next, par, moved') && Seg(nodes', nodes[nn].next, NULL, owner, rem.rest)
  {
    var nodes' := nodes[nn := nodes[nn].(parent := par, next := next)];
    moved' := Append(moved, Cons(rem.id, rem.kids, Nil));
    SegFrame(nodes, nodes', first, nn, par, moved);
    SegFrame(nodes, nodes', nodes[nn].child, NULL, nn, rem.kids);
    SegFrame(nodes, nodes', nodes[nn].next, NULL, owner, rem.rest);
    assert Seg(nodes', nn, next, par, Cons(rem.id, rem.kids, Nil)) by {
      assert Seg(nodes', next, next, par, Nil);
    }
    SegAppend(nodes', first, nn, next, par, moved, Cons(rem.id, rem.kids, Nil));
  }

  /** Hooking a new list in after `done`: either behind its last node, or as first child of the parent. */
  ghost function Hooked(nodes: seq<Links>, par: int, prev: int, p: int): seq<Links>
    requires 0 <= par < |nodes| && prev < |nodes|
  {
    if prev >= 0 then nodes[prev := nodes[prev].(next := p)] else nodes[par := nodes[par].(child := p)]
  }

  lemma HookedSeg(nodes: seq<Links>, par: int, n: int, done: Forest, p: int)
    requires 0 <= par < |nodes| && NoDup(done) && par !in Ids(done)
    requires Seg(nodes, nodes[par].child, n, par, done)
    ensures LastOr(NULL, done) < |nodes|
    ensures var nodes' := Hooked(nodes, par, LastOr(NULL, done), p);
            Seg(nodes', nodes'[par].child, p, par, done)
  {
    if done.Cons? {
      var prev := LastOr(NULL, done);
      LastIn(NULL, done);
      SegInRange(nodes, nodes[par].child, n, par, done, prev);
      var nodes' := Hooked(nodes, par, prev, p);
      SegRetarget(nodes, nodes', nodes[par].child, n, p, par, done);
    }
  }

  class Script {
    const kinds: seq<Kind>
    var nodes: seq<Links>
    ghost var log: seq<nat>   // init callbacks, in order

    /** node_find_prev_sibling */
    method FindPrevSibling(n: nat, ghost done: Forest) returns (prev: int)
      requires n < |nodes| && 0 <= nodes[n].parent < |nodes| && n !in Ids(done)
      requires Seg(nodes, nodes[nodes[n].parent].child, n, nodes[n].parent, done)
      ensures prev == LastOr(NULL, done)
    {
      prev := NULL;
      var c := nodes[nodes[n].parent].child;
      ghost var rem := done;
      while c != NULL && c != n
        invariant Seg(nodes, c, n, nodes[n].parent, rem) && n !in Ids(rem)
        invariant LastOr(prev, rem) == LastOr(NULL, done)
        decreases rem
      {
        prev := c;
        c := nodes[c].next;
        rem := rem.rest;
      }
    }

    /** The loop that hands the spliced nodes over to a new parent and ties up the end of the list. */
    method Reparent(first: int, par: int, next: int, ghost owner: int, ghost body: Forest)
      requires body.Cons? && NoDup(body) && Seg(nodes, first, NULL, owner, body)
      modifies `nodes
      ensures Seg(nodes, first, next, par, body)
      ensures Frame(old(nodes), nodes, Ids(body)) && FlagsKept(old(nodes), nodes)
    {
      var nn := first;
      ghost var moved, rem := Nil, body;
      while nn != NULL
        invariant Frame(old(nodes), nodes, Ids(body)) && FlagsKept(old(nodes), nodes)
        invariant NoDup(rem) && Ids(moved) !! Ids(rem) && Append(moved, rem) == body
        invariant nn != NULL ==> rem.Cons? && Seg(nodes, first, nn, par, moved) && Seg(nodes, nn, NULL, owner, rem)
        invariant nn == NULL ==> Seg(nodes, first, next, par, body)
        decreases nn != NULL, rem
      {
        AppendIds(moved, rem);
        ghost var before := nodes;
        var following := nodes[nn].next;
        SegHead(nodes, following, NULL, owner, rem.rest);
        ghost var end := if following == NULL then next else following;
        ghost var moved' := ReparentStep(nodes, first, nn, par, end, owner, moved, rem);
        FrameStep(old(nodes), nodes, nn, nodes[nn].(parent := par, next := end), Ids(body));
        FlagsStep(old(nodes), nodes, nn, nodes[nn].(parent := par, next := end));
        AppendAssoc(moved, Cons(rem.id, rem.kids, Nil), rem.rest);
        AppendIds(moved, Cons(rem.id, rem.kids, Nil));
        nodes := nodes[nn := nodes[nn].(parent := par)];
        if nodes[nn].next == NULL {
          nodes := nodes[nn := nodes[nn].(next := next)];
          assert nodes == before[nn := before[nn].(parent := par, next := end)];
          AppendNil(moved');
          break;
        }
        assert nodes == before[nn := before[nn].(parent := par, next := end)];
        moved, rem := moved', rem.rest;
        nn := nodes[nn].next;
      }
    }

    /** The node loses its children and goes on to `p`, as does whatever stands before it in its list. */
    method Detach(n: nat, prev: int, p: int)
      requires n < |nodes| && 0 <= nodes[n].parent < |nodes| && nodes[n].parent != n
      requires -1 <= prev < |nodes| && prev != n
      modifies `nodes
      ensures nodes == Detached(old(nodes), n, old(nodes[n].parent), prev, p)
    {
      var parent := nodes[n].parent;
      nodes := nodes[n := nodes[n].(child := NULL)];
      nodes := nodes[n := nodes[n].(next := p)];
      if prev != NULL {
        nodes := nodes[prev := nodes[prev].(next := p)];
      } else {
        nodes := nodes[parent := nodes[parent].(child := p)];
      }
    }

    /**
     The common end of _if_pull_if, _if_pull_else and _in_sources_init: node `n` is replaced in its
     sibling list by the list `body` starting at `first`, followed by `next`. The node itself keeps
     pointing into the list, so that a loop standing on it goes on with the replacement.
     */
    method SpliceOut(n: nat, prev: int, first: int, next: int, ghost owner: int,
                     ghost par: nat, ghost done: Forest, ghost body: Forest, ghost after: Forest)
      requires n < |nodes| && nodes[n].parent == par < |nodes| && par != n
      requires Seg(nodes, nodes[par].child, n, par, done) && prev == LastOr(NULL, done)
      requires Seg(nodes, first, NULL, owner, body) && Seg(nodes, next, NULL, par, after)
      requires NoDup(done) && NoDup(body) && NoDup(after)
      requires Ids(done) !! Ids(body) && Ids(done) !! Ids(after) && Ids(body) !! Ids(after)
      requires n !in Ids(done) + Ids(body) + Ids(after) && par !in Ids(done) + Ids(body) + Ids(after)
      modifies `nodes
      ensures |nodes| == |old(nodes)| && nodes[n].next == Head(Append(body, after), NULL) && nodes[n].child == -1
      ensures Between(nodes, par, nodes[n].next, done, Append(body, after))
      ensures Frame(old(nodes), nodes, {par, n} + Ids(done) + Ids(body)) && FlagsKept(old(nodes), nodes)
      ensures nodes[par].next == old(nodes[par].next) && nodes[par].parent == old(nodes[par].parent)
    {
      ghost var S := {par, n} + Ids(done) + Ids(body);
      SegHead(nodes, first, NULL, owner, body);
      SegHead(nodes, next, NULL, par, after);
      HookedSeg(nodes, par, n, done, Head(body, next));
      SpliceLinks(nodes, n, par, done, body, after, first, next, owner);
      if done.Cons? { LastIn(NULL, done); }
      var parent := nodes[n].parent;
      Detach(n, prev, if first != NULL then first else next);
      if first != NULL {
        ghost var mid := nodes;
        Reparent(first, parent, next, owner, body);
        SpliceEnds(old(nodes), mid, nodes, n, par, done, body, after, first, next);
      } else {
        SpliceEnds(old(nodes), nodes, nodes, n, par, done, body, after, next, next);
      }
    }

    /** _if_pull_if: the rest of the children replaces the rule and its else-bag. */
    method PullIf(n: nat, ghost par: int, ghost done: Forest, ghost kids: Forest, ghost rest: Forest)
      requires |kinds| == |nodes| && At(nodes, par, n, done, kids, rest) && kids.Cons?
      modifies `nodes
      ensures Spliced(old(nodes), nodes, n, par, done, kids, rest, Replacement(true, kids, rest, kinds))
    {
      ReplacementIds(true, kids, rest, kinds);
      var mn := nodes[n].child;
      var prev := FindPrevSibling(n, done);
      var next := nodes[n].next;
      var nn := nodes[mn].next;
      SegHead(nodes, next, NULL, par, rest);
      if IsElse(next) {
        next := nodes[next].next;
      }
      SpliceOut(n, prev, nn, next, n, par, done, kids.rest, AfterElse(rest, kinds));
      SplicedFits(old(nodes), nodes, n, par, done, kids, rest, kids.rest, AfterElse(rest, kinds));
    }

    /** _if_pull_else: the children of the else-bag, if there is one, replace the rule and the bag. */
    method PullElse(n: nat, ghost par: int, ghost done: Forest, ghost kids: Forest, ghost rest: Forest)
      requires |kinds| == |nodes| && At(nodes, par, n, done, kids, rest) && kids.Cons?
      modifies `nodes
      ensures Spliced(old(nodes), nodes, n, par, done, kids, rest, Replacement(false, kids, rest, kinds))
    {
      ReplacementIds(false, kids, rest, kinds);
      var prev := FindPrevSibling(n, done);
      var next := nodes[n].next;
      var nn := NULL;
      ghost var owner := NULL;
      SegHead(nodes, next, NULL, par, rest);
      if IsElse(next) {
        owner := next;
        nn := nodes[next].child;
        next := nodes[next].next;
      }
      SpliceOut(n, prev, nn, next, owner, par, done, ElseBody(rest, kinds), AfterElse(rest, kinds));
      SplicedFits(old(nodes), nodes, n, par, done, kids, rest, ElseBody(rest, kinds), AfterElse(rest, kinds));
    }

    /** _in_sources_init: the children replace the node. */
    method InSourcesInit(n: nat, ghost par: int, ghost done: Forest, ghost kids: Forest, ghost rest: Forest)
      requires |kinds| == |nodes| && At(nodes, par, n, done, kids, rest)
      modifies `nodes
      ensures Spliced(old(nodes), nodes, n, par, done, kids, rest, Append(kids, rest))
    {
      var nn := nodes[n].child;
      var prev := FindPrevSibling(n, done);
      SpliceOut(n, prev, nn, nodes[n].next, n, par, done, kids, rest);
      SplicedFits(old(nodes), nodes, n, par, done, kids, rest, kids, rest);
    }

    predicate IsRule(n: nat)
      requires n < |kinds|
    {
      kinds[n].If? || kinds[n].InSources?
    }

    /** The initialization of a whole script, from its root (script_build). */
    method Init(root: nat, ghost kids: Forest) returns (ok: bool)
      requires |kinds| == |nodes| && root < |nodes| && !IsRule(root)
      requires Seg(nodes, nodes[root].child, NULL, root, kids) && NoDup(kids) && root !in Ids(kids)
      requires AllFlags(nodes, kids, false) && !nodes[root].init
      modifies `nodes, `log
      ensures ok <==> ShakeOk(kids, kinds)
      ensures ok ==> |nodes| == |kinds| && Seg(nodes, nodes[root].child, NULL, root, Shake(kids, kinds))
      ensures ok ==> AllFlags(nodes, Shake(kids, kinds), true) && nodes[root].init
      ensures ok ==> log == old(log) + InitOrder(kids, kinds) + [root]
      ensures ok ==> |old(log)| < |log|
      ensures ok ==> Only(log[|old(log)|..|log| - 1], Ids(Shake(kids, kinds))) == PostOrder(Shake(kids, kinds))
      ensures ok && WellPlaced(kids, kinds) ==> Shake(kids, kinds) == Lexical(kids, kinds)
    {
      ok := InitDefault(root, kids);
      if ok {
        ChildrenFirst(kids, kinds);
        assert log[|old(log)|..|log| - 1] == InitOrder(kids, kinds);
      }
      if ok && WellPlaced(kids, kinds) {
        ShakeIsLexical(kids, kinds);
      }
    }

    /**
     node_init for node `n`, which the loop over the children of `par` has reached: `done` is
     initialized, `n` and the siblings `rest` are not. Afterwards the list is `done'` and `todo'`.
     */
    method NodeInit(n: nat, ghost par: int, ghost done: Forest, ghost kids: Forest, ghost rest: Forest)
      returns (ok: bool, ghost done': Forest, ghost todo': Forest)
      requires |kinds| == |nodes| && At(nodes, par, n, done, kids, rest)
      requires AllFlags(nodes, Cons(n, kids, rest), false) && AllFlags(nodes, done, true)
      modifies `nodes, `log
      ensures |nodes| == |kinds|
      ensures !ok ==> !ShakeOk(Cons(n, kids, rest), kinds)
      ensures ok ==> Advanced(old(nodes), nodes, old(log), log, kinds, n, par, done, kids, rest, done', todo')
      decreases Size(kids), 1
    {
      done', todo' := done, rest;
      Below(nodes, n, kids, rest);
      match kinds[n]
      case If(matched) =>
        nodes := nodes[n := nodes[n].(init := true)];
        FlagSet(old(nodes), n, par, done, kids, rest);
        ghost var mid := nodes;
        ok := IfInit(n, matched, par, done, kids, rest);
        if ok {
          todo' := Replacement(matched, kids, rest, kinds);
          ghost var order := InitOrder(kids.kids, kinds) + [kids.id] + [n];
          assert mid == old(nodes)[n := old(nodes)[n].(init := true)];
          RuleAdvances(old(nodes), nodes, old(log), log, kinds, n, par, done, kids, rest, todo', order);
        }
      case InSources =>
        nodes := nodes[n := nodes[n].(init := true)];
        FlagSet(old(nodes), n, par, done, kids, rest);
        ghost var mid := nodes;
        InSourcesInit(n, par, done, kids, rest);
        log := log + [n];
        ok := true;
        todo' := Append(kids, rest);
        AppendIds(kids, rest);
        AppendSize(kids, rest);
        SplicedIsRuleDone(mid, nodes, old(log), log, n, par, done, kids, rest, todo', [n]);
        RuleAdvances(old(nodes), nodes, old(log), log, kinds, n, par, done, kids, rest, todo', [n]);
      case _ =>
        ok := InitDefault(n, kids);
        if ok {
          done' := Append(done, Cons(n, Shake(kids, kinds), Nil));
          PlainAdvances(old(nodes), nodes, old(log), log, kinds, n, par, done, kids, rest);
        }
    }

    /** node_init of an ordinary node: first everything below it, then its own callback. */
    method InitDefault(n: nat, ghost kids: Forest) returns (ok: bool)
      requires |kinds| == |nodes| && n < |nodes| && !IsRule(n)
      requires Seg(nodes, nodes[n].child, NULL, n, kids) && NoDup(kids) && n !in Ids(kids)
      requires AllFlags(nodes, kids, false)
      modifies `nodes, `log
      ensures |nodes| == |kinds|
      ensures ok <==> ShakeOk(kids, kinds)
      ensures ok ==> PlainDone(old(nodes), nodes, kinds, n, kids) && nodes[n].init
      ensures ok ==> log == old(log) + InitOrder(kids, kinds) + [n]
      decreases Size(kids), 0
    {
      nodes := nodes[n := nodes[n].(init := true)];
      OwnFlagSet(old(nodes), n, kids);
      ghost var mid := nodes;
      ok := InitSubnodes(n, kids);
      if ok {
        log := log + [n];
        PlainTrans(old(nodes), mid, nodes, kinds, n, kids);
      }
    }

    /** _if_init: the condition first, then one of the two splices. */
    method IfInit(n: nat, matched: bool, ghost par: int, ghost done: Forest, ghost kids: Forest, ghost rest: Forest)
      returns (ok: bool)
      requires |kinds| == |nodes| && At(nodes, par, n, done, kids, rest)
      requires AllFlags(nodes, kids, false) && AllFlags(nodes, rest, false) && AllFlags(nodes, done, true)
      modifies `nodes, `log
      ensures |nodes| == |kinds|
      ensures ok <==> IsCondition(kids, kinds) && ShakeOk(kids.kids, kinds)
      ensures ok ==> RuleDone(old(nodes), nodes, n, par, done, kids, rest, Replacement(matched, kids, rest, kinds))
      ensures ok ==> log == old(log) + (InitOrder(kids.kids, kinds) + [kids.id] + [n])
      decreases Size(kids), 0
    {
      var cn := nodes[n].child;
      CondHead(nodes, kinds, cn, n, kids);
      if cn == NULL || kinds[cn] != Plain {
        return false;   // no condition, or one that cannot be evaluated
      }
      CondBelow(nodes, n, kids);
      ok := InitDefault(cn, kids.kids);   // node_init(cn)
      if !ok {
        return;
      }
      log := log + [n];
      ghost var mid := nodes;
      ghost var kids1 := Cons(cn, Shake(kids.kids, kinds), kids.rest);
      CondDone(old(nodes), mid, kinds, n, par, done, kids, rest);
      if matched {
        PullIf(n, par, done, kids1, rest);
      } else {
        PullElse(n, par, done, kids1, rest);
      }
      IfDone(old(nodes), mid, nodes, kinds, n, matched, par, done, kids, rest);
      LogChain(old(log), InitOrder(kids.kids, kinds), cn, n, log);
    }

    /**
     _init_subnodes: walk over the children, initializing those that are not, until a walk finds
     nothing to do. The walk follows the links as they are at the moment, so it continues into
     whatever has been spliced in.
     */
    method InitSubnodes(n: nat, ghost kids: Forest) returns (ok: bool)
      requires |kinds| == |nodes| && n < |nodes|
      requires Seg(nodes, nodes[n].child, NULL, n, kids) && NoDup(kids) && n !in Ids(kids)
      requires AllFlags(nodes, kids, false)
      modifies `nodes, `log
      ensures |nodes| == |kinds|
      ensures ok <==> ShakeOk(kids, kinds)
      ensures ok ==> PlainDone(old(nodes), nodes, kinds, n, kids)
      ensures ok ==> log == old(log) + InitOrder(kids, kinds)
      decreases Size(kids), -1
    {
      ok := true;
      ghost var first := true;
      var c := 1;
      while c > 0
        invariant |nodes| == |kinds| && n < |nodes| && c >= 0 && nodes[n].init == old(nodes[n].init)
        invariant first ==> c == 1 && nodes == old(nodes) && log == old(log)
        invariant !first ==> ShakeOk(kids, kinds) && PlainDone(old(nodes), nodes, kinds, n, kids)
        invariant !first ==> log == old(log) + InitOrder(kids, kinds)
        decreases first, c
      {
        c := 0;
        var nn := nodes[n].child;
        ghost var done, todo := Nil, if first then kids else Shake(kids, kinds);
        RoundStarts(old(nodes), nodes, old(log), log, kinds, n, kids, first);
        while nn != NULL
          invariant |nodes| == |kinds| && n < |nodes| && c >= 0 && (!first ==> c == 0)
          invariant Round(old(nodes), nodes, old(log), log, kinds, n, kids, nn, done, todo, first)
          decreases Size(todo)
        {
          RoundAt(old(nodes), nodes, old(log), log, kinds, n, kids, nn, done, todo, first);
          ghost var before, log1 := nodes, log;
          if !nodes[nn].init {
            c := c + 1;
            ghost var done', todo';
            ok, done', todo' := NodeInit(nn, n, done, todo.kids, todo.rest);
            if !ok {
              return;
            }
            RoundInits(old(nodes), before, nodes, old(log), log1, log, kinds, n, kids, nn, done, todo, done', todo');
            done, todo := done', todo';
          } else {
            RoundSkips(old(nodes), nodes, old(log), log, kinds, n, kids, nn, done, todo);
            done, todo := Append(done, Cons(todo.id, todo.kids, Nil)), todo.rest;
          }
          nn := nodes[nn].next;
        }
        RoundEnds(old(nodes), nodes, old(log), log, kinds, n, kids, done, todo, first);
        first := false;
      }
    }

    /** _if_node_is_else */
    predicate IsElse(p: int)
      reads this
      requires p == NULL || 0 <= p < |kinds|
    {
      p != NULL && kinds[p] == Else
    }
  }

  /** Node `n` stands in the list of children of `par`, between `done` and `rest`. */
  ghost predicate At(nodes: seq<Links>, par: int, n: nat, done: Forest, kids: Forest, rest: Forest) {
    && n < |nodes| && nodes[n].parent == par && 0 <= par < |nodes| && par != n
    && Seg(nodes, nodes[par].child, n, par, done)
    && Seg(nodes, nodes[n].child, NULL, n, kids)
    && Seg(nodes, nodes[n].next, NULL, par, rest)
    && NoDup(done) && NoDup(Cons(n, kids, rest)) && Ids(done) !! Ids(Cons(n, kids, rest))
    && par !in Ids(done) && par !in Ids(kids) && par !in Ids(rest)
  }

  /** Node `n` has been replaced by the list `r`, and nothing else has changed. */
  ghost predicate Spliced(nodes: seq<Links>, nodes': seq<Links>, n: nat, par: int,
                          done: Forest, kids: Forest, rest: Forest, r: Forest)
  {
    && n < |nodes| && 0 <= par < |nodes| && FlagsKept(nodes, nodes')
    && Between(nodes', par, nodes'[n].next, done, r)
    && Frame(nodes, nodes', {par, n} + Ids(done) + Ids(kids) + Ids(rest))
    && nodes'[par].next == nodes[par].next && nodes'[par].parent == nodes[par].parent
  }

  lemma SplicedFits(nodes: seq<Links>, nodes': seq<Links>, n: nat, par: int,
                    done: Forest, kids: Forest, rest: Forest, body: Forest, after: Forest)
    requires n < |nodes| && 0 <= par < |nodes| && FlagsKept(nodes, nodes')
    requires Between(nodes', par, nodes'[n].next, done, Append(body, after))
    requires Frame(nodes, nodes', {par, n} + Ids(done) + Ids(body)) && Ids(body) <= Ids(kids) + Ids(rest)
    requires nodes'[par].next == nodes[par].next && nodes'[par].parent == nodes[par].parent
    ensures Spliced(nodes, nodes', n, par, done, kids, rest, Append(body, after))
  {
    forall x: nat | x !in {par, n} + Ids(done) + Ids(kids) + Ids(rest) ensures NodeKept(nodes, nodes', x) {
      assert x !in {par, n} + Ids(done) + Ids(body);
    }
  }

  // ---------------------------------------------------------------- what initialization does to the links

  /** The children of `n` are shaken and initialized, and nothing else has changed. */
  ghost predicate PlainDone(nodes: seq<Links>, nodes': seq<Links>, kinds: seq<Kind>, n: nat, kids: Forest)
    requires ShakeOk(kids, kinds)
  {
    && n < |nodes| && Frame(nodes, nodes', {n} + Ids(kids))
    && nodes'[n].next == nodes[n].next && nodes'[n].parent == nodes[n].parent
    && (nodes[n].init ==> nodes'[n].init)
    && Seg(nodes', nodes'[n].child, NULL, n, Shake(kids, kinds))
    && AllFlags(nodes', Shake(kids, kinds), true)
  }

  /** The rule `n` has been replaced by `r`, which is not initialized yet. */
  ghost predicate RuleDone(nodes: seq<Links>, nodes': seq<Links>, n: nat, par: int,
                           done: Forest, kids: Forest, rest: Forest, r: Forest)
  {
    && n < |nodes| && 0 <= par < |nodes|
    && Frame(nodes, nodes', {par, n} + Ids(done) + Ids(kids) + Ids(rest))
    && Between(nodes', par, nodes'[n].next, done, r)
    && nodes'[par].next == nodes[par].next && nodes'[par].parent == nodes[par].parent
    && nodes'[par].init == nodes[par].init
    && AllFlags(nodes', done, true) && AllFlags(nodes', r, false)
  }

  /** Shaking what is left of a list completes the shaking of the whole list. */
  ghost predicate Progress(kinds: seq<Kind>, f: Forest, done: Forest, log: seq<nat>, done': Forest, todo': Forest,
                           log': seq<nat>) {
    && (ShakeOk(f, kinds) <==> ShakeOk(todo', kinds))
    && (ShakeOk(f, kinds) ==>
          && Append(done', Shake(todo', kinds)) == Append(done, Shake(f, kinds))
          && log' + InitOrder(todo', kinds) == log + InitOrder(f, kinds))
  }

  /** The walk over the children of `par` has dealt with node `n`. */
  ghost predicate Advanced(nodes: seq<Links>, nodes': seq<Links>, log: seq<nat>, log': seq<nat>, kinds: seq<Kind>,
                           n: nat, par: int, done: Forest, kids: Forest, rest: Forest, done': Forest, todo': Forest)
  {
    && n < |nodes| && 0 <= par < |nodes|
    && Frame(nodes, nodes', {par, n} + Ids(done) + Ids(kids) + Ids(rest))
    && Between(nodes', par, nodes'[n].next, done', todo')
    && nodes'[par].next == nodes[par].next && nodes'[par].parent == nodes[par].parent
    && nodes'[par].init == nodes[par].init
    && AllFlags(nodes', done', true) && AllFlags(nodes', todo', false)
    && Ids(done') <= Ids(done) + {n} + Ids(kids) + Ids(rest) && Ids(todo') <= Ids(kids) + Ids(rest)
    && Size(todo') < Size(Cons(n, kids, rest))
    && Progress(kinds, Cons(n, kids, rest), done, log, done', todo', log')
  }

  lemma Below(nodes: seq<Links>, n: nat, kids: Forest, rest: Forest)
    requires AllFlags(nodes, Cons(n, kids, rest), false)
    ensures AllFlags(nodes, kids, false) && AllFlags(nodes, rest, false) && FlagIs(nodes, n, false)
  {
    assert forall id: nat :: id in Ids(kids) || id in Ids(rest) ==> id in Ids(Cons(n, kids, rest));
    assert n in Ids(Cons(n, kids, rest));
  }

  lemma FlagsFrame(nodes: seq<Links>, nodes': seq<Links>, f: Forest, b: bool, S: set<int>)
    requires AllFlags(nodes, f, b) && Frame(nodes, nodes', S) && forall id: nat :: id in Ids(f) ==> id !in S
    ensures AllFlags(nodes', f, b)
  {
    forall id: nat | id in Ids(f) ensures FlagIs(nodes', id, b) {
      assert FlagIs(nodes, id, b) && NodeKept(nodes, nodes', id);
    }
  }

  lemma FlagsSame(nodes: seq<Links>, nodes': seq<Links>, f: Forest, b: bool)
    requires AllFlags(nodes, f, b) && FlagsKept(nodes, nodes')
    ensures AllFlags(nodes', f, b)
  {
    forall id: nat | id in Ids(f) ensures FlagIs(nodes', id, b) {
      assert FlagIs(nodes, id, b) && FlagKept(nodes, nodes', id);
    }
  }

  /** Setting the INIT flag of `n` touches no link. */
  lemma FlagSet(nodes: seq<Links>, n: nat, par: int, done: Forest, kids: Forest, rest: Forest)
    requires At(nodes, par, n, done, kids, rest)
    requires AllFlags(nodes, kids, false) && AllFlags(nodes, rest, false) && AllFlags(nodes, done, true)
    ensures var nodes' := nodes[n := nodes[n].(init := true)];
      && At(nodes', par, n, done, kids, rest) && Frame(nodes, nodes', {n})
      && AllFlags(nodes', kids, false) && AllFlags(nodes', rest, false) && AllFlags(nodes', done, true)
  {
    var nodes' := nodes[n := nodes[n].(init := true)];
    forall id: nat ensures LinksKept(nodes, nodes', id) {}
    forall id: nat | id !in {n} ensures NodeKept(nodes, nodes', id) {}
    SegFrame(nodes, nodes', nodes[par].child, n, par, done);
    SegFrame(nodes, nodes', nodes[n].child, NULL, n, kids);
    SegFrame(nodes, nodes', nodes[n].next, NULL, par, rest);
    FlagsFrame(nodes, nodes', kids, false, {n});
    FlagsFrame(nodes, nodes', rest, false, {n});
    FlagsFrame(nodes, nodes', done, true, {n});
  }

  lemma OwnFlagSet(nodes: seq<Links>, n: nat, kids: Forest)
    requires n < |nodes| && n !in Ids(kids) && Seg(nodes, nodes[n].child, NULL, n, kids) && AllFlags(nodes, kids, false)
    ensures var nodes' := nodes[n := nodes[n].(init := true)];
            Seg(nodes', nodes'[n].child, NULL, n, kids) && AllFlags(nodes', kids, false) && Frame(nodes, nodes', {n})
  {
    var nodes' := nodes[n := nodes[n].(init := true)];
    forall id: nat ensures LinksKept(nodes, nodes', id) {}
    forall id: nat | id !in {n} ensures NodeKept(nodes, nodes', id) {}
    SegFrame(nodes, nodes', nodes[n].child, NULL, n, kids);
    FlagsFrame(nodes, nodes', kids, false, {n});
  }

  lemma PlainTrans(nodes: seq<Links>, mid: seq<Links>, nodes': seq<Links>, kinds: seq<Kind>, n: nat, kids: Forest)
    requires n < |nodes| && mid == nodes[n := nodes[n].(init := true)] && Frame(nodes, mid, {n})
    requires ShakeOk(kids, kinds) && PlainDone(mid, nodes', kinds, n, kids)
    ensures PlainDone(nodes, nodes', kinds, n, kids)
  {
    FrameTrans(nodes, mid, nodes', {n}, {n} + Ids(kids));
  }

  /** A splice of a rule whose children need no initialization. */
  lemma SplicedIsRuleDone(nodes: seq<Links>, nodes': seq<Links>, log: seq<nat>, log': seq<nat>, n: nat, par: int,
                          done: Forest, kids: Forest, rest: Forest, r: Forest, order: seq<nat>)
    requires Spliced(nodes, nodes', n, par, done, kids, rest, r) && Ids(r) <= Ids(kids) + Ids(rest)
    requires AllFlags(nodes, kids, false) && AllFlags(nodes, rest, false) && AllFlags(nodes, done, true)
    ensures RuleDone(nodes, nodes', n, par, done, kids, rest, r)
  {
    assert FlagKept(nodes, nodes', par);
    FlagsSame(nodes, nodes', done, true);
    forall id: nat | id in Ids(r) ensures FlagIs(nodes', id, false) {
      assert FlagIs(nodes, id, false) && FlagKept(nodes, nodes', id);
    }
  }

  /** What the rule `n` is to be replaced by, and the init callbacks that run meanwhile. */
  ghost predicate RuleStep(kinds: seq<Kind>, n: nat, kids: Forest, rest: Forest, r: Forest, order: seq<nat>)
    requires n < |kinds|
  {
    if kinds[n].If? then
      && IsCondition(kids, kinds) && ShakeOk(kids.kids, kinds)
      && r == Replacement(kinds[n].matched, kids, rest, kinds)
      && order == InitOrder(kids.kids, kinds) + [kids.id] + [n]
    else
      kinds[n].InSources? && r == Append(kids, rest) && order == [n]
  }

  lemma RuleProgress(log: seq<nat>, kinds: seq<Kind>, n: nat, done: Forest, kids: Forest, rest: Forest, r: Forest,
                     order: seq<nat>)
    requires n < |kinds| && RuleStep(kinds, n, kids, rest, r, order)
    ensures Progress(kinds, Cons(n, kids, rest), done, log, done, r, log + order)
  {
    var f := Cons(n, kids, rest);
    if ShakeOk(r, kinds) {
      assert ShakeOk(f, kinds);
      assert Shake(f, kinds) == Shake(r, kinds);
      assert InitOrder(f, kinds) == order + InitOrder(r, kinds);
      assert (log + order) + InitOrder(r, kinds) == log + (order + InitOrder(r, kinds));
    }
  }

  lemma RuleFits(kinds: seq<Kind>, n: nat, kids: Forest, rest: Forest, r: Forest, order: seq<nat>)
    requires n < |kinds| && RuleStep(kinds, n, kids, rest, r, order) && NoDup(Cons(n, kids, rest))
    ensures Ids(r) <= Ids(kids) + Ids(rest) && Size(r) < Size(Cons(n, kids, rest))
  {
    NoDupParts(Cons(n, kids, rest));
    if kinds[n].If? {
      ReplacementIds(kinds[n].matched, kids, rest, kinds);
    } else {
      AppendIds(kids, rest);
      AppendSize(kids, rest);
    }
  }

  lemma RuleAdvances(nodes: seq<Links>, nodes': seq<Links>, log: seq<nat>, log': seq<nat>, kinds: seq<Kind>,
                     n: nat, par: int, done: Forest, kids: Forest, rest: Forest, r: Forest, order: seq<nat>)
    requires At(nodes, par, n, done, kids, rest) && |nodes| == |kinds|
    requires RuleDone(nodes[n := nodes[n].(init := true)], nodes', n, par, done, kids, rest, r)
    requires log' == log + order && RuleStep(kinds, n, kids, rest, r, order)
    ensures Advanced(nodes, nodes', log, log', kinds, n, par, done, kids, rest, done, r)
  {
    var mid := nodes[n := nodes[n].(init := true)];
    forall id: nat | id !in {n} ensures NodeKept(nodes, mid, id) {}
    FrameTrans(nodes, mid, nodes', {n}, {par, n} + Ids(done) + Ids(kids) + Ids(rest));
    RuleFits(kinds, n, kids, rest, r, order);
    RuleProgress(log, kinds, n, done, kids, rest, r, order);
  }

  lemma PlainProgress(log: seq<nat>, kinds: seq<Kind>, n: nat, done: Forest, kids: Forest, rest: Forest)
    requires n < |kinds| && (kinds[n] == Plain || kinds[n] == Else) && ShakeOk(kids, kinds)
    ensures Progress(kinds, Cons(n, kids, rest), done, log,
                     Append(done, Cons(n, Shake(kids, kinds), Nil)), rest, log + InitOrder(kids, kinds) + [n])
  {
    var f, g := Cons(n, kids, rest), Cons(n, Shake(kids, kinds), Nil);
    if ShakeOk(rest, kinds) {
      AppendAssoc(done, g, Shake(rest, kinds));
      assert InitOrder(f, kinds) == InitOrder(kids, kinds) + [n] + InitOrder(rest, kinds);
      assert (log + InitOrder(kids, kinds) + [n]) + InitOrder(rest, kinds) == log + InitOrder(f, kinds);
    }
  }

  /** An initialized node joins the initialized part of the list. */
  lemma PlainJoins(nodes: seq<Links>, nodes': seq<Links>, kinds: seq<Kind>, n: nat, par: int, done: Forest,
                   kids: Forest, rest: Forest)
    requires At(nodes, par, n, done, kids, rest)
    requires ShakeOk(kids, kinds) && PlainDone(nodes, nodes', kinds, n, kids)
    ensures var done' := Append(done, Cons(n, Shake(kids, kinds), Nil));
            Between(nodes', par, nodes'[n].next, done', rest) && Ids(done') <= Ids(done) + {n} + Ids(kids)
            && nodes'[par] == nodes[par]
  {
    var S, g := {n} + Ids(kids), Cons(n, Shake(kids, kinds), Nil);
    NoDupParts(Cons(n, kids, rest));
    InitializedOnce(kids, kinds);
    AppendIds(done, g);
    AppendNoDup(done, g);
    assert NodeKept(nodes, nodes', par);
    SegFrameOut(nodes, nodes', nodes[par].child, n, par, done, S);
    SegFrameOut(nodes, nodes', nodes[n].next, NULL, par, rest, S);
    assert Seg(nodes', n, nodes'[n].next, par, g) by {
      assert Seg(nodes', nodes'[n].next, nodes'[n].next, par, Nil);
    }
    SegAppend(nodes', nodes'[par].child, n, nodes'[n].next, par, done, g);
  }

  lemma PlainAdvances(nodes: seq<Links>, nodes': seq<Links>, log: seq<nat>, log': seq<nat>, kinds: seq<Kind>,
                      n: nat, par: int, done: Forest, kids: Forest, rest: Forest)
    requires At(nodes, par, n, done, kids, rest) && |nodes| == |kinds| && (kinds[n] == Plain || kinds[n] == Else)
    requires ShakeOk(kids, kinds) && PlainDone(nodes, nodes', kinds, n, kids) && nodes'[n].init
    requires AllFlags(nodes, rest, false) && AllFlags(nodes, done, true)
    requires log' == log + InitOrder(kids, kinds) + [n]
    ensures Advanced(nodes, nodes', log, log', kinds, n, par, done, kids, rest,
                     Append(done, Cons(n, Shake(kids, kinds), Nil)), rest)
  {
    var S, g := {n} + Ids(kids), Cons(n, Shake(kids, kinds), Nil);
    NoDupParts(Cons(n, kids, rest));
    PlainJoins(nodes, nodes', kinds, n, par, done, kids, rest);
    FlagsFrame(nodes, nodes', rest, false, S);
    FlagsFrame(nodes, nodes', done, true, S);
    AppendIds(done, g);
    forall id: nat | id in Ids(Append(done, g)) ensures FlagIs(nodes', id, true) {
      if id in Ids(done) { assert FlagIs(nodes', id, true); }
      if id in Ids(Shake(kids, kinds)) { assert FlagIs(nodes', id, true); }
    }
    WiderFrame(nodes, nodes', S, {par, n} + Ids(done) + Ids(kids) + Ids(rest));
    PlainProgress(log, kinds, n, done, kids, rest);
  }

  lemma WiderFrame(nodes: seq<Links>, nodes': seq<Links>, S: set<int>, T: set<int>)
    requires Frame(nodes, nodes', S) && S <= T
    ensures Frame(nodes, nodes', T)
  {
    forall id: nat | id !in T ensures NodeKept(nodes, nodes', id) {
      assert id !in S;
    }
  }

  /** The condition of an if-rule is a node of its own. */
  lemma CondBelow(nodes: seq<Links>, n: nat, kids: Forest)
    requires kids.Cons? && n < |nodes| && Seg(nodes, nodes[n].child, NULL, n, kids) && AllFlags(nodes, kids, false)
    requires NoDup(kids)
    ensures NoDup(kids.kids) && kids.id !in Ids(kids.kids)
    ensures kids.id < |nodes| && Seg(nodes, nodes[kids.id].child, NULL, kids.id, kids.kids)
    ensures AllFlags(nodes, kids.kids, false)
  {
    Below(nodes, kids.id, kids.kids, kids.rest);
  }

  /** The first child is a condition if it is a plain node. */
  lemma CondHead(nodes: seq<Links>, kinds: seq<Kind>, cn: int, n: int, kids: Forest)
    requires |kinds| == |nodes| && Seg(nodes, cn, NULL, n, kids)
    ensures cn == NULL <==> kids == Nil
    ensures cn != NULL ==> 0 <= cn < |nodes| && kids.Cons? && kids.id == cn
    ensures cn != NULL ==> (kinds[cn] == Plain <==> IsCondition(kids, kinds))
    ensures kids == Nil ==> !IsCondition(kids, kinds)
  {
  }

  lemma LogChain(before: seq<nat>, below: seq<nat>, x: nat, y: nat, log: seq<nat>)
    requires log == before + below + [x] + [y]
    ensures log == before + (below + [x] + [y])
  {
  }

  /** Initializing the condition keeps the rule where it is. */
  lemma CondDone(nodes: seq<Links>, nodes': seq<Links>, kinds: seq<Kind>, n: nat, par: int, done: Forest, kids: Forest,
                 rest: Forest)
    requires At(nodes, par, n, done, kids, rest) && kids.Cons? && ShakeOk(kids.kids, kinds)
    requires PlainDone(nodes, nodes', kinds, kids.id, kids.kids)
    requires AllFlags(nodes, kids, false) && AllFlags(nodes, rest, false) && AllFlags(nodes, done, true)
    ensures At(nodes', par, n, done, Cons(kids.id, Shake(kids.kids, kinds), kids.rest), rest)
    ensures AllFlags(nodes', kids.rest, false) && AllFlags(nodes', rest, false) && AllFlags(nodes', done, true)
    ensures nodes'[par] == nodes[par]
  {
    var S := {kids.id} + Ids(kids.kids);
    NoDupParts(Cons(n, kids, rest));
    NoDupParts(kids);
    InitializedOnce(kids.kids, kinds);
    assert NodeKept(nodes, nodes', par) && NodeKept(nodes, nodes', n);
    Below(nodes, kids.id, kids.kids, kids.rest);
    SegFrameOut(nodes, nodes', nodes[par].child, n, par, done, S);
    SegFrameOut(nodes, nodes', nodes[n].next, NULL, par, rest, S);
    SegFrameOut(nodes, nodes', nodes[kids.id].next, NULL, n, kids.rest, S);
    FlagsFrame(nodes, nodes', kids.rest, false, S);
    FlagsFrame(nodes, nodes', rest, false, S);
    FlagsFrame(nodes, nodes', done, true, S);
  }

  lemma IfDone(nodes: seq<Links>, mid: seq<Links>, nodes': seq<Links>, kinds: seq<Kind>, n: nat, matched: bool,
               par: int,
               done: Forest, kids: Forest, rest: Forest)
    requires At(nodes, par, n, done, kids, rest) && kids.Cons? && ShakeOk(kids.kids, kinds)
    requires PlainDone(nodes, mid, kinds, kids.id, kids.kids) && mid[par] == nodes[par]
    requires AllFlags(mid, kids.rest, false) && AllFlags(mid, rest, false) && AllFlags(mid, done, true)
    requires var kids1 := Cons(kids.id, Shake(kids.kids, kinds), kids.rest);
             Spliced(mid, nodes', n, par, done, kids1, rest, Replacement(matched, kids1, rest, kinds))
    ensures RuleDone(nodes, nodes', n, par, done, kids, rest, Replacement(matched, kids, rest, kinds))
  {
    var r := Replacement(matched, kids, rest, kinds);
    var S := {par, n} + Ids(done) + Ids(kids) + Ids(rest);
    NoDupParts(Cons(n, kids, rest));
    NoDupParts(kids);
    InitializedOnce(kids.kids, kinds);
    ReplacementIds(matched, kids, rest, kinds);
    var shaken := Cons(kids.id, Shake(kids.kids, kinds), kids.rest);
    WiderFrame(mid, nodes', {par, n} + Ids(done) + Ids(shaken) + Ids(rest), S);
    FrameTrans(nodes, mid, nodes', {kids.id} + Ids(kids.kids), S);
    assert FlagKept(mid, nodes', par);
    FlagsSame(mid, nodes', done, true);
    forall id: nat | id in Ids(r) ensures FlagIs(nodes', id, false) {
      assert FlagIs(mid, id, false) && FlagKept(mid, nodes', id);
    }
  }

  // ---------------------------------------------------------------- one walk over the children

  /**
   A walk over the children of `n` stands at `nn`. In the first walk nothing ahead is initialized;
   in the second one everything is.
   */
  ghost predicate Round(nodes0: seq<Links>, nodes: seq<Links>, log0: seq<nat>, log: seq<nat>, kinds: seq<Kind>,
                        n: nat, kids: Forest, nn: int, done: Forest, todo: Forest, first: bool)
  {
    && n < |nodes0| && Frame(nodes0, nodes, {n} + Ids(kids)) && Between(nodes, n, nn, done, todo)
    && nodes[n].next == nodes0[n].next && nodes[n].parent == nodes0[n].parent && nodes[n].init == nodes0[n].init
    && Ids(done) <= Ids(kids) && Ids(todo) <= Ids(kids) && AllFlags(nodes, done, true)
    && (first ==> AllFlags(nodes, todo, false) && Progress(kinds, kids, Nil, log0, done, todo, log))
    && (!first ==>
          && AllFlags(nodes, todo, true) && ShakeOk(kids, kinds) && Append(done, todo) == Shake(kids, kinds)
          && log == log0 + InitOrder(kids, kinds))
  }

  lemma RoundStarts(nodes0: seq<Links>, nodes: seq<Links>, log0: seq<nat>, log: seq<nat>, kinds: seq<Kind>,
                    n: nat, kids: Forest, first: bool)
    requires n < |nodes0| && n !in Ids(kids) && NoDup(kids)
    requires first ==>
      nodes == nodes0 && log == log0 && Seg(nodes, nodes[n].child, NULL, n, kids) && AllFlags(nodes, kids, false)
    requires !first ==>
      ShakeOk(kids, kinds) && PlainDone(nodes0, nodes, kinds, n, kids) && log == log0 + InitOrder(kids, kinds)
      && nodes[n].init == nodes0[n].init
    ensures |nodes| == |nodes0|
    ensures Round(nodes0, nodes, log0, log, kinds, n, kids, nodes[n].child, Nil,
                  if first then kids else Shake(kids, kinds), first)
  {
    if !first { InitializedOnce(kids, kinds); }
  }

  lemma RoundAt(nodes0: seq<Links>, nodes: seq<Links>, log0: seq<nat>, log: seq<nat>, kinds: seq<Kind>,
                n: nat, kids: Forest, nn: int, done: Forest, todo: Forest, first: bool)
    requires Round(nodes0, nodes, log0, log, kinds, n, kids, nn, done, todo, first) && nn != NULL && n !in Ids(kids)
    ensures todo.Cons? && nn == todo.id < |nodes| && At(nodes, n, nn, done, todo.kids, todo.rest)
    ensures nodes[nn].init == !first
  {
    SegHead(nodes, nn, NULL, n, todo);
    assert todo.id in Ids(todo);
    assert FlagIs(nodes, todo.id, !first);
  }

  lemma RoundInits(nodes0: seq<Links>, nodes: seq<Links>, nodes': seq<Links>, log0: seq<nat>, log: seq<nat>,
                   log': seq<nat>,
                   kinds: seq<Kind>, n: nat, kids: Forest, nn: nat,
                   done: Forest, todo: Forest, done': Forest, todo': Forest)
    requires Round(nodes0, nodes, log0, log, kinds, n, kids, nn, done, todo, true) && todo.Cons? && nn == todo.id
    requires Advanced(nodes, nodes', log, log', kinds, nn, n, done, todo.kids, todo.rest, done', todo')
    ensures Round(nodes0, nodes', log0, log', kinds, n, kids, nodes'[nn].next, done', todo', true)
  {
    WiderFrame(nodes, nodes', {n, nn} + Ids(done) + Ids(todo.kids) + Ids(todo.rest), {n} + Ids(kids));
    FrameTrans(nodes0, nodes, nodes', {n} + Ids(kids), {n} + Ids(kids));
    assert Cons(nn, todo.kids, todo.rest) == todo;
  }

  lemma RoundSkips(nodes0: seq<Links>, nodes: seq<Links>, log0: seq<nat>, log: seq<nat>, kinds: seq<Kind>,
                   n: nat, kids: Forest, nn: nat, done: Forest, todo: Forest)
    requires Round(nodes0, nodes, log0, log, kinds, n, kids, nn, done, todo, false) && todo.Cons?
             && nn == todo.id < |nodes|
    ensures Round(nodes0, nodes, log0, log, kinds, n, kids, nodes[nn].next,
                  Append(done, Cons(todo.id, todo.kids, Nil)), todo.rest, false)
  {
    var g := Cons(todo.id, todo.kids, Nil);
    assert Seg(nodes, nn, nodes[nn].next, n, g) by {
      assert Seg(nodes, nodes[nn].next, nodes[nn].next, n, Nil);
    }
    SegAppend(nodes, nodes[n].child, nn, nodes[nn].next, n, done, g);
    AppendIds(done, g);
    AppendNoDup(done, g);
    AppendAssoc(done, g, todo.rest);
    forall id: nat | id in Ids(Append(done, g)) ensures FlagIs(nodes, id, true) {
      if id in Ids(done) { assert FlagIs(nodes, id, true); } else { assert id in Ids(todo); }
    }
    forall id: nat | id in Ids(todo.rest) ensures FlagIs(nodes, id, true) {
      assert id in Ids(todo);
    }
  }

  lemma RoundEnds(nodes0: seq<Links>, nodes: seq<Links>, log0: seq<nat>, log: seq<nat>, kinds: seq<Kind>,
                  n: nat, kids: Forest, done: Forest, todo: Forest, first: bool)
    requires Round(nodes0, nodes, log0, log, kinds, n, kids, NULL, done, todo, first)
    ensures ShakeOk(kids, kinds) && PlainDone(nodes0, nodes, kinds, n, kids) && log == log0 + InitOrder(kids, kinds)
    ensures nodes[n].init == nodes0[n].init
  {
    SegHead(nodes, NULL, NULL, n, todo);
    AppendNil(done);
    assert log + [] == log;
  }

  /** `n` cut off from its children and pointing to `p`, and the list before it continued at `p`. */
  ghost function Detached(nodes: seq<Links>, n: nat, par: nat, prev: int, p: int): seq<Links>
    requires n < |nodes| && par < |nodes| && prev < |nodes|
  {
    Hooked(nodes[n := nodes[n].(child := NULL, next := p)], par, prev, p)
  }

  /** The children of `par` are `done` up to `nn`, and then `todo`. */
  ghost predicate Between(nodes: seq<Links>, par: int, nn: int, done: Forest, todo: Forest) {
    && 0 <= par < |nodes| && par !in Ids(done) && par !in Ids(todo)
    && Seg(nodes, nodes[par].child, nn, par, done) && Seg(nodes, nn, NULL, par, todo)
    && NoDup(done) && NoDup(todo) && Ids(done) !! Ids(todo)
  }

  /** The lists involved in a splice survive the detaching. */
  lemma SpliceLinks(nodes: seq<Links>, n: nat, par: nat, done: Forest, body: Forest, after: Forest, first: int,
                    next: int, owner: int)
    requires n < |nodes| && par < |nodes| && par != n
    requires Seg(nodes, nodes[par].child, n, par, done) && NoDup(done)
    requires Seg(nodes, first, NULL, owner, body) && Seg(nodes, next, NULL, par, after)
    requires Ids(done) !! Ids(body) && Ids(done) !! Ids(after)
    requires n !in Ids(done) + Ids(body) + Ids(after) && par !in Ids(done) + Ids(body) + Ids(after)
    ensures LastOr(NULL, done) < |nodes|
    ensures var nodes' := Detached(nodes, n, par, LastOr(NULL, done), Head(body, next));
      && Seg(nodes', nodes'[par].child, Head(body, next), par, done)
      && Seg(nodes', first, NULL, owner, body) && Seg(nodes', next, NULL, par, after)
      && Frame(nodes, nodes', {par, n} + Ids(done)) && FlagsKept(nodes, nodes')
      && nodes'[n].next == Head(body, next)
  {
    HookedSeg(nodes, par, n, done, Head(body, next));
    var p, prev := Head(body, next), LastOr(NULL, done);
    if done.Cons? { LastIn(NULL, done); }
    var cut := nodes[n := nodes[n].(child := NULL, next := p)];
    var nodes' := Hooked(cut, par, prev, p);
    assert Frame(nodes, nodes', {par, n} + Ids(done)) by {
      forall id: nat | id !in {par, n} + Ids(done) ensures NodeKept(nodes, nodes', id) {}
    }
    assert FlagsKept(nodes, nodes') by {
      forall id: nat ensures FlagKept(nodes, nodes', id) {}
    }
    SegFrame(nodes, cut, nodes[par].child, n, par, done);
    HookedSeg(cut, par, n, done, p);
    SegFrameOut(nodes, nodes', first, NULL, owner, body, {par, n} + Ids(done));
    SegFrameOut(nodes, nodes', next, NULL, par, after, {par, n} + Ids(done));
  }

  /** After the new list has been handed over, everything is in place. */
  lemma SpliceEnds(nodes: seq<Links>, mid: seq<Links>, nodes': seq<Links>, n: nat, par: nat,
                   done: Forest, body: Forest, after: Forest, first: int, next: int)
    requires n < |nodes| && par < |nodes| && par != n
    requires NoDup(done) && NoDup(body) && NoDup(after)
    requires Ids(done) !! Ids(body) && Ids(done) !! Ids(after) && Ids(body) !! Ids(after)
    requires n !in Ids(done) + Ids(body) + Ids(after) && par !in Ids(done) + Ids(body) + Ids(after)
    requires Frame(nodes, mid, {par, n} + Ids(done)) && FlagsKept(nodes, mid)
    requires Seg(mid, mid[par].child, Head(body, next), par, done) && Seg(mid, next, NULL, par, after)
    requires mid[n].next == Head(body, next)
    requires Frame(mid, nodes', Ids(body)) && FlagsKept(mid, nodes')
    requires Seg(nodes', first, next, par, body)
    ensures nodes'[n].next == Head(Append(body, after), NULL)
    ensures Between(nodes', par, nodes'[n].next, done, Append(body, after))
    ensures Frame(nodes, nodes', {par, n} + Ids(done) + Ids(body)) && FlagsKept(nodes, nodes')
    ensures nodes'[par] == mid[par] && nodes'[n] == mid[n]
  {
    assert NodeKept(mid, nodes', par) && NodeKept(mid, nodes', n);
    SegHead(nodes', first, next, par, body);
    SegHead(mid, next, NULL, par, after);
    SegFrameOut(mid, nodes', mid[par].child, Head(body, next), par, done, Ids(body));
    SegFrameOut(mid, nodes', next, NULL, par, after, Ids(body));
    SegAppend(nodes', first, next, NULL, par, body, after);
    AppendIds(body, after);
    AppendNoDup(body, after);
    forall x: nat | x !in {par, n} + Ids(done) + Ids(body) ensures NodeKept(nodes, nodes', x) {
      assert NodeKept(nodes, mid, x) && NodeKept(mid, nodes', x);
    }
    forall x: nat ensures FlagKept(nodes, nodes', x) {
      assert FlagKept(nodes, mid, x) && FlagKept(mid, nodes', x);
    }
  }
}
